/** The add/edit company dialog: validation, logo state and submission. */
module CompanyForm {
  import opened Wrappers
  import opened Text
  import opened Database
  import opened Backend
  import opened Seqs

  /** The validated form fields. */
  datatype CompanyFormData = CompanyFormData(name: string, is_active: bool)

  /** `companySchema`: a name of 1 to 100 characters (UTF-16 units). */
  predicate ValidCompanyData(d: CompanyFormData) {
    LengthBetween(d.name, 1, 100)
  }

  /** The form's default values: the edited company's, or an empty name and
      an active flag for a new one. */
  function CompanyDefaults(company: Option<Company>): (d: CompanyFormData)
    ensures company.None? ==> d == CompanyFormData("", true)
    ensures company.Some? ==> d == CompanyFormData(company.value.name, company.value.is_active)
  {
    CompanyFormData(if company.Some? && company.value.name != "" then company.value.name else "",
                    if company.Some? then company.value.is_active else true)
  }

  /** The pending logo file and the preview URL the dialog shows. */
  datatype LogoState = LogoState(file: Option<File>, preview: Option<string>)

  /** A pending file always has a visible preview. */
  predicate LogoStateOk(s: LogoState) {
    s.file.Some? ==> Truthy(s.preview)
  }

  /** On opening: no pending file, the current logo as preview. */
  function InitialLogoState(company: Option<Company>): (s: LogoState)
    ensures s.file.None? && LogoStateOk(s)
    ensures Truthy(s.preview) <==> company.Some? && Truthy(company.value.logo_url)
  {
    LogoState(None, OrNull(if company.Some? then company.value.logo_url else None))
  }

  /** `handleLogoChange`: a picked file becomes pending and its object URL the
      preview; with no file picked nothing changes. Object URLs are never empty. */
  function HandleLogoChange(s: LogoState, picked: Option<File>, objectUrl: string): (s': LogoState)
    requires objectUrl != ""
    ensures picked.None? ==> s' == s
    ensures picked.Some? ==> s'.file == picked && s'.preview == Some(objectUrl)
    ensures LogoStateOk(s) ==> LogoStateOk(s')
  {
    if picked.Some? then LogoState(picked, Some(objectUrl)) else s
  }

  /** `removeLogo`: clears both the pending file and the preview. */
  function RemoveLogo(s: LogoState): (s': LogoState)
    ensures s'.file.None? && !Truthy(s'.preview)
    ensures LogoStateOk(s')
  {
    LogoState(None, None)
  }

  /** The object key of an uploaded logo: `<uuid>.<extension>`. */
  function LogoKey(uuid: string, file: File): string {
    uuid + "." + FileExtension(file.name)
  }

  /** The logo key keeps the file's extension, the text after its last ".". */
  lemma LogoKeyShape(uuid: string, file: File)
    ensures var key := LogoKey(uuid, file);
      var ext := FileExtension(file.name);
      key[..|uuid|] == uuid && key[|uuid|] == '.' && key[|uuid| + 1..] == ext
      && '.' !in ext && EndsWith(file.name, ext)
  {
    ExtensionAfterLastDot(file.name);
  }

  /** `onSubmit` for validated data. `uuid` stands for `crypto.randomUUID()`,
      `upload` and `db` for the store's replies, `publicUrl` for
      `getPublicUrl`. */
  function SubmitCompany(company: Option<Company>, data: CompanyFormData, s: LogoState, uuid: string,
                         upload: Reply, publicUrl: (Bucket, string) -> string, db: Reply): (r: Submission)
    // a failed upload stops everything: no row write, no callbacks
    ensures s.file.Some? && upload.Some? ==>
              r == Submission([Upload(CompanyLogos, LogoKey(uuid, s.file.value), s.file.value)],
                              [ErrorToast(upload.value)], false)
    // otherwise exactly one row write, the last call, after the upload if any
    ensures (s.file.None? || upload.None?) ==>
              |r.calls| >= 1 && r.calls[|r.calls| - 1].WritesRow()
              && (forall i :: 0 <= i < |r.calls| - 1 ==> !r.calls[i].WritesRow())
              && (s.file.Some? ==>
                    r.calls[..|r.calls| - 1] ==
                    [Upload(CompanyLogos, LogoKey(uuid, s.file.value), s.file.value),
                     GetPublicUrl(CompanyLogos, LogoKey(uuid, s.file.value))])
              && (s.file.None? ==> |r.calls| == 1)
    // update of the edited company's row iff editing, insert otherwise
    ensures r.Wrote() ==> var w := r.calls[|r.calls| - 1];
              (w.Update? <==> company.Some?)
              && (w.Update? ==> w.table == Companies && w.id == company.value.id)
              && (w.Insert? ==> w.table == Companies)
    // exactly the three fields are written
    ensures r.Wrote() ==> var row := r.calls[|r.calls| - 1].row;
              row.CompanyRow? && row.name == data.name && row.is_active == data.is_active
    // a new file: the public URL of the object uploaded in this submission
    ensures r.Wrote() && s.file.Some? ==>
              r.calls[0].Upload? && r.calls[|r.calls| - 1].row.logo_url == Some(publicUrl(CompanyLogos, r.calls[0].key))
    // no file, preview cleared, company had a logo: the logo is removed
    ensures r.Wrote() && s.file.None? && !Truthy(s.preview) && company.Some? && Truthy(company.value.logo_url) ==>
              r.calls[|r.calls| - 1].row.logo_url == None
    // otherwise the current logo stays (none on create)
    ensures r.Wrote() && s.file.None? && (Truthy(s.preview) || company.None? || !Truthy(company.value.logo_url)) ==>
              r.calls[|r.calls| - 1].row.logo_url == (if company.Some? then OrNull(company.value.logo_url) else None)
    // the callbacks run iff neither the upload nor the write failed
    ensures r.succeeded <==> (s.file.None? || upload.None?) && db.None?
    ensures r.succeeded ==> r.toasts == [Toast(if company.Some? then "Company updated successfully"
                                               else "Company created successfully", None, false)]
    ensures !r.succeeded ==> |r.toasts| == 1 && r.toasts[0].destructive
    ensures (s.file.None? || upload.None?) && db.Some? ==> r.toasts == [ErrorToast(db.value)]
  {
    var current := OrNull(if company.Some? then company.value.logo_url else None);
    if s.file.Some? && upload.Some? then
      Submission([Upload(CompanyLogos, LogoKey(uuid, s.file.value), s.file.value)],
                 [ErrorToast(upload.value)], false)
    else
      var before :=
        if s.file.Some? then [Upload(CompanyLogos, LogoKey(uuid, s.file.value), s.file.value),
                              GetPublicUrl(CompanyLogos, LogoKey(uuid, s.file.value))]
        else [];
      var logoUrl :=
        if s.file.Some? then Some(publicUrl(CompanyLogos, LogoKey(uuid, s.file.value)))
        else if !Truthy(s.preview) && company.Some? && Truthy(company.value.logo_url) then None
        else current;
      var row := CompanyRow(data.name, data.is_active, logoUrl);
      if company.Some? then
        Finish(before, Update(Companies, company.value.id, row), db, "Company updated successfully")
      else
        Finish(before, Insert(Companies, row), db, "Company created successfully")
  }

  /** `form.handleSubmit(onSubmit)`: invalid data never reaches the store. */
  function HandleSubmitCompany(company: Option<Company>, data: CompanyFormData, s: LogoState, uuid: string,
                               upload: Reply, publicUrl: (Bucket, string) -> string, db: Reply): (r: Submission)
    ensures !ValidCompanyData(data) ==> r.calls == [] && !r.succeeded
    ensures ValidCompanyData(data) ==> r == SubmitCompany(company, data, s, uuid, upload, publicUrl, db)
  {
    if ValidCompanyData(data) then SubmitCompany(company, data, s, uuid, upload, publicUrl, db)
    else Rejected
  }

  // The dialog's lifetime. The dashboard mounts this form once, while no
  // company is being edited, and never re-keys it; nothing in the form
  // resets its state afterwards. Every later opening, edit or add, starts
  // from the logo state and field values the previous one left (the mount's
  // defaults before any entry), and a submission leaves them as they were.

  /** The default values the dashboard's single mount computes. */
  const MountedDefaults: CompanyFormData := CompanyDefaults(None)

  /** The logo state the dashboard's single mount creates. */
  const MountedLogo: LogoState := InitialLogoState(None)

  /** A change of the logo input, or a click on the remove button. */
  datatype LogoEvent = Pick(picked: Option<File>, objectUrl: string) | Remove

  /** Object URLs are never empty. */
  predicate ObjectUrlsNonEmpty(events: seq<LogoEvent>) {
    forall i :: 0 <= i < |events| ==> (events[i].Pick? ==> events[i].objectUrl != "")
  }

  /** The logo state after a run of picks and removals. */
  function ReplayLogo(s: LogoState, events: seq<LogoEvent>): (r: LogoState)
    requires ObjectUrlsNonEmpty(events)
    // a removal clears both; a pick of a file makes it pending with its preview
    ensures |events| > 0 && events[|events| - 1].Remove? ==> r == LogoState(None, None)
    ensures |events| > 0 && events[|events| - 1].Pick? && events[|events| - 1].picked.Some? ==>
              r == LogoState(events[|events| - 1].picked, Some(events[|events| - 1].objectUrl))
    // events that neither pick a file nor remove leave the state alone
    ensures (forall i :: 0 <= i < |events| ==> events[i].Pick? && events[i].picked.None?) ==> r == s
    decreases |events|
  {
    if |events| == 0 then s
    else
      var next := match events[0]
                  case Pick(f, u) => HandleLogoChange(s, f, u)
                  case Remove => RemoveLogo(s);
      var rest := events[1..];
      assert forall i :: 0 <= i < |rest| ==> rest[i] == events[i + 1];
      ReplayLogo(next, rest)
  }

  /** Starting without any preview that is not a pending file's, picks and
      removals never produce one: the preview exists iff a file is pending. */
  lemma {:induction false} PreviewOnlyForPendingFile(s: LogoState, events: seq<LogoEvent>)
    requires ObjectUrlsNonEmpty(events)
    requires s.file.Some? <==> s.preview.Some?
    ensures var s' := ReplayLogo(s, events); s'.file.Some? <==> s'.preview.Some?
    decreases |events|
  {
    if |events| > 0 {
      var next := match events[0]
                  case Pick(f, u) => HandleLogoChange(s, f, u)
                  case Remove => RemoveLogo(s);
      assert ObjectUrlsNonEmpty(events[1..]) by {
        forall i | 0 <= i < |events[1..]|
          ensures events[1..][i].Pick? ==> events[1..][i].objectUrl != ""
        {
          assert events[1..][i] == events[i + 1];
        }
      }
      PreviewOnlyForPendingFile(next, events[1..]);
    }
  }

  /** As written, editing a company that has a logo, without picking a new
      one, clears the logo: the mounted dialog never shows the company's logo
      as preview, so the "logo was removed" branch applies. */
  lemma EditClearsLogoAsWritten(c: Company, data: CompanyFormData, events: seq<LogoEvent>, uuid: string,
                                upload: Reply, publicUrl: (Bucket, string) -> string)
    requires Truthy(c.logo_url) && ValidCompanyData(data) && ObjectUrlsNonEmpty(events)
    ensures var s := ReplayLogo(MountedLogo, events);
      s.file.None? ==>
        HandleSubmitCompany(Some(c), data, s, uuid, upload, publicUrl, None).calls
        == [Update(Companies, c.id, CompanyRow(data.name, data.is_active, None))]
  {
    PreviewOnlyForPendingFile(MountedLogo, events);
  }

  /** The concrete case: open Edit on a company with a logo and save it
      renamed; the update writes a null logo. */
  lemma EditClearsLogoExample(publicUrl: (Bucket, string) -> string)
    ensures var c := Company("c1", "Acme", Some("https://x/a.png"), true, "", "");
      HandleSubmitCompany(Some(c), CompanyFormData("Acme", true), MountedLogo, "u", None, publicUrl, None).calls
      == [Update(Companies, "c1", CompanyRow("Acme", true, None))]
  {
    assert Utf16Length("Acme") == 4;
  }

  /** As written, the dialog opens with the values last entered in it: the
      form keeps them across closing and saving, and holds the mount's
      defaults only until the first entry. */
  function OpenedValues(entered: seq<CompanyFormData>): (d: CompanyFormData)
    ensures |entered| == 0 ==> d == MountedDefaults
    ensures |entered| > 0 ==> d == entered[|entered| - 1]
  {
    Latest(entered, MountedDefaults)
  }

  /** As written, on the first opening after the mount the edit dialog is
      not pre-filled: its values are the mount's empty name, so saving it
      untouched is refused by validation. */
  lemma EditDialogNotPrefilledAsWritten(c: Company, s: LogoState, uuid: string, upload: Reply,
                                        publicUrl: (Bucket, string) -> string, db: Reply)
    ensures OpenedValues([]) == CompanyFormData("", true)
    ensures HandleSubmitCompany(Some(c), OpenedValues([]), s, uuid, upload, publicUrl, db) == Rejected
  {
  }

  /** As written, after any earlier entry (a company just added, say),
      opening Edit on `c` and saving untouched writes that entry's name and
      flag onto `c`'s row, and, with no logo pending, a null logo. */
  lemma EditAfterEntryWritesCarriedValues(c: Company, entered: seq<CompanyFormData>, events: seq<LogoEvent>,
                                          uuid: string, upload: Reply, publicUrl: (Bucket, string) -> string)
    requires |entered| > 0 && ValidCompanyData(entered[|entered| - 1]) && ObjectUrlsNonEmpty(events)
    ensures var prev := entered[|entered| - 1];
      var s := ReplayLogo(MountedLogo, events);
      s.file.None? ==>
        HandleSubmitCompany(Some(c), OpenedValues(entered), s, uuid, upload, publicUrl, None).calls
        == [Update(Companies, c.id, CompanyRow(prev.name, prev.is_active, None))]
  {
    PreviewOnlyForPendingFile(MountedLogo, events);
  }

  /** As written, a logo picked in one opening stays pending: every later
      submission, even of a different company or a new one, uploads it again. */
  lemma PendingLogoReusedAsWritten(f: File, u: string, company: Option<Company>, data: CompanyFormData,
                                   uuid: string, upload: Reply, publicUrl: (Bucket, string) -> string, db: Reply)
    requires u != "" && ValidCompanyData(data)
    ensures var s := ReplayLogo(MountedLogo, [Pick(Some(f), u)]);
      HandleSubmitCompany(company, data, s, uuid, upload, publicUrl, db).calls[0]
      == Upload(CompanyLogos, LogoKey(uuid, f), f)
  {
    assert ObjectUrlsNonEmpty([Pick(Some(f), u)]);
  }

  /** The dialog state as it is evidently meant to be at each opening: the
      edited company's values and logo, and no pending file. */
  datatype CompanyDialog = CompanyDialog(values: CompanyFormData, logo: LogoState)

  /** Corrected: the state re-initialised whenever the dialog opens. */
  function OpenCompanyDialog(company: Option<Company>): (d: CompanyDialog)
    ensures d.logo.file.None? && LogoStateOk(d.logo)
    ensures company.Some? ==> d.values == CompanyFormData(company.value.name, company.value.is_active)
                              && d.logo.preview == OrNull(company.value.logo_url)
    ensures company.None? ==> d.values == CompanyFormData("", true) && d.logo.preview.None?
  {
    CompanyDialog(CompanyDefaults(company), InitialLogoState(company))
  }

  /** With the corrected opening, saving an edited company without touching
      anything writes its current name, flag and logo back (an empty logo
      text becomes null), and a new company never carries a stale logo. */
  lemma UnchangedEditWritesBack(c: Company, uuid: string, publicUrl: (Bucket, string) -> string)
    requires LengthBetween(c.name, 1, 100)
    ensures var d := OpenCompanyDialog(Some(c));
      var r := HandleSubmitCompany(Some(c), d.values, d.logo, uuid, None, publicUrl, None);
      r.calls == [Update(Companies, c.id, CompanyRow(c.name, c.is_active, OrNull(c.logo_url)))]
      && r.succeeded
    ensures forall data :: ValidCompanyData(data) ==>
      HandleSubmitCompany(None, data, OpenCompanyDialog(None).logo, uuid, None, publicUrl, None).calls
      == [Insert(Companies, CompanyRow(data.name, data.is_active, None))]
  {
  }

  /** Removing the logo of a company that had one and saving writes a null
      logo, so the next read shows none. */
  lemma RemovedLogoIsCleared(c: Company, data: CompanyFormData, s: LogoState, uuid: string,
                             upload: Reply, publicUrl: (Bucket, string) -> string)
    requires ValidCompanyData(data) && Truthy(c.logo_url)
    ensures var r := HandleSubmitCompany(Some(c), data, RemoveLogo(s), uuid, upload, publicUrl, None);
      r.calls == [Update(Companies, c.id, CompanyRow(data.name, data.is_active, None))]
  {
  }
}
