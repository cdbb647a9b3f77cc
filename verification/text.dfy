/** The handful of JavaScript string operations the application relies on,
    stated over Dafny strings (sequences of Unicode scalar values). */
module Text {
  import opened Wrappers

  /** Number of UTF-16 code units a character occupies: JavaScript strings
      store characters outside the Basic Multilingual Plane as a surrogate pair. */
  function CodeUnits(c: char): nat {
    if c as int < 0x1_0000 then 1 else 2
  }

  /** JavaScript's `s.length`, which zod's `min`/`max` string checks compare. */
  function Utf16Length(s: string): (n: nat)
    ensures |s| <= n <= 2 * |s|
    ensures |s| == 0 <==> n == 0
  {
    if |s| == 0 then 0 else CodeUnits(s[0]) + Utf16Length(s[1..])
  }

  /** For text made only of Basic Multilingual Plane characters, the
      JavaScript length is the character count. */
  lemma {:induction false} Utf16LengthOfBmp(s: string)
    requires forall i :: 0 <= i < |s| ==> s[i] as int < 0x1_0000
    ensures Utf16Length(s) == |s|
  {
    if |s| > 0 {
      assert s[0] as int < 0x1_0000;
      Utf16LengthOfBmp(s[1..]);
    }
  }

  /** zod's `z.string().min(lo).max(hi)`. */
  predicate LengthBetween(s: string, lo: nat, hi: nat) {
    lo <= Utf16Length(s) <= hi
  }

  /** `charCodeAt(0)` of a string starting with `c`: the character itself for
      the Basic Multilingual Plane, otherwise the leading (high) surrogate. */
  function FirstCodeUnit(c: char): (u: nat)
    ensures u < 0x1_0000
    ensures c as int < 0x1_0000 ==> u == c as int
    ensures c as int >= 0x1_0000 ==> 0xD800 <= u < 0xDC00
  {
    if c as int < 0x1_0000 then c as int
    else 0xD800 + (c as int - 0x1_0000) / 0x400
  }

  /** JavaScript truthiness of a `string | null`: null and "" are falsy. */
  predicate Truthy(o: Option<string>) {
    o.Some? && o.value != ""
  }

  /** `o || null` for a `string | null`. */
  function OrNull(o: Option<string>): (r: Option<string>)
    ensures r.Some? <==> Truthy(o)
    ensures r.Some? ==> r == o
  {
    if Truthy(o) then o else None
  }

  /** `s.endsWith(suffix)`. */
  predicate EndsWith(s: string, suffix: string) {
    |suffix| <= |s| && s[|s| - |suffix|..] == suffix
  }

  /** `parts.join(sep)` for a one-character separator. */
  function Join(parts: seq<string>, sep: char): string {
    if |parts| == 0 then ""
    else if |parts| == 1 then parts[0]
    else parts[0] + [sep] + Join(parts[1..], sep)
  }

  /** `s.split(sep)` for a one-character separator: the maximal runs of
      characters between separators, so there is always at least one part. */
  function Split(s: string, sep: char): (parts: seq<string>)
    ensures |parts| >= 1
    ensures forall i :: 0 <= i < |parts| ==> sep !in parts[i]
    ensures Join(parts, sep) == s
  {
    if |s| == 0 then [""]
    else
      var rest := Split(s[1..], sep);
      if s[0] == sep then
        assert ([""] + rest)[1..] == rest;
        [""] + rest
      else
        var parts := [[s[0]] + rest[0]] + rest[1..];
        assert parts[1..] == rest[1..];
        assert s == [s[0]] + s[1..];
        parts
  }

  lemma {:induction false} JoinLast(parts: seq<string>, sep: char)
    requires |parts| >= 2
    ensures Join(parts, sep) == Join(parts[..|parts| - 1], sep) + [sep] + parts[|parts| - 1]
    decreases |parts|
  {
    if |parts| == 2 {
      assert parts[..1] == [parts[0]];
    } else {
      JoinLast(parts[1..], sep);
      assert parts[1..][..|parts| - 2] == parts[..|parts| - 1][1..];
    }
  }

  lemma SeparatorInJoin(parts: seq<string>, sep: char)
    requires |parts| >= 2
    ensures sep in Join(parts, sep)
  {
  }

  /** `name.split(".").pop()`. */
  function FileExtension(name: string): string {
    var parts := Split(name, '.');
    parts[|parts| - 1]
  }

  /** The extension is exactly the part of the name after its last ".":
      it contains no ".", it ends the name, and the character before it is
      that "." when the name has one; otherwise it is the whole name. */
  lemma ExtensionAfterLastDot(name: string)
    ensures var ext := FileExtension(name);
      && '.' !in ext
      && EndsWith(name, ext)
      && ('.' in name ==> |ext| < |name| && name[|name| - |ext| - 1] == '.')
      && ('.' !in name ==> ext == name)
  {
    var parts := Split(name, '.');
    var ext := parts[|parts| - 1];
    if |parts| == 1 {
      assert Join(parts, '.') == ext;
    } else {
      JoinLast(parts, '.');
      SeparatorInJoin(parts, '.');
      assert name == Join(parts[..|parts| - 1], '.') + ['.'] + ext;
    }
  }

  /** A name built as `base.ext` with a dot-free `ext` yields that `ext`. */
  lemma ExtensionOfDottedName(base: string, ext: string)
    requires '.' !in ext
    ensures FileExtension(base + "." + ext) == ext
  {
    var name := base + "." + ext;
    var e := FileExtension(name);
    assert name[|base|] == '.';
    ExtensionAfterLastDot(name);
    assert e == name[|name| - |ext|..] == ext;
  }

  /** ASCII upper-casing of one character. */
  function ToUpperAscii(c: char): char {
    if 'a' <= c <= 'z' then (c as int - 'a' as int + 'A' as int) as char else c
  }

  /** `s.charAt(0).toUpperCase() + s.slice(1)`. */
  function Capitalize(s: string): (r: string)
    ensures |r| == |s|
    ensures |s| > 0 ==> r[1..] == s[1..] && r[0] == ToUpperAscii(s[0])
  {
    if |s| == 0 then "" else [ToUpperAscii(s[0])] + s[1..]
  }
}
