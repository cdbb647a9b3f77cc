/** What the public company card derives from one `CompanyWithRelations`. */
module CompanyCard {
  import opened Wrappers
  import opened Text
  import opened Database
  import opened Seqs

  const CardGradients: seq<string> := [
    "from-elife-cyan/20 via-elife-blue/10 to-transparent",
    "from-elife-blue/20 via-elife-green/10 to-transparent",
    "from-elife-green/20 via-elife-yellow/10 to-transparent",
    "from-elife-yellow/20 via-elife-orange/10 to-transparent",
    "from-elife-orange/20 via-elife-pink/10 to-transparent",
    "from-elife-pink/20 via-elife-cyan/10 to-transparent"]

  const IconColors: seq<string> := [
    "text-elife-cyan", "text-elife-blue", "text-elife-green",
    "text-elife-yellow", "text-elife-orange", "text-elife-pink"]

  const BorderColors: seq<string> := [
    "border-elife-cyan/30 hover:border-elife-cyan/60",
    "border-elife-blue/30 hover:border-elife-blue/60",
    "border-elife-green/30 hover:border-elife-green/60",
    "border-elife-yellow/30 hover:border-elife-yellow/60",
    "border-elife-orange/30 hover:border-elife-orange/60",
    "border-elife-pink/30 hover:border-elife-pink/60"]

  /** `id.charCodeAt(0) % cardGradients.length`. The code unit is never
      negative, so JavaScript's truncating `%` and Dafny's agree. */
  function ColorIndex(id: string): (i: nat)
    requires |id| > 0
    ensures i < |CardGradients| && i < |IconColors| && i < |BorderColors|
  {
    FirstCodeUnit(id[0]) % |CardGradients|
  }

  datatype Theme = Theme(gradient: string, iconColor: string, borderColor: string)

  /** The three colour classes picked by the colour index. */
  function ThemeOf(id: string): (t: Theme)
    requires |id| > 0
    ensures exists i :: 0 <= i < 6 && t == Theme(CardGradients[i], IconColors[i], BorderColors[i])
  {
    var i := ColorIndex(id);
    Theme(CardGradients[i], IconColors[i], BorderColors[i])
  }

  /** The colours depend on the first character of the id only. */
  lemma SameFirstCharSameTheme(a: string, b: string)
    requires |a| > 0 && |b| > 0 && a[0] == b[0]
    ensures ThemeOf(a) == ThemeOf(b)
  {
  }

  function OfType(t: LinkType): WebsiteLink -> bool {
    (l: WebsiteLink) => l.link_type == t
  }

  function WebsiteTypeLinks(links: seq<WebsiteLink>): seq<WebsiteLink> {
    Filter(links, OfType(Website))
  }

  function AdminTypeLinks(links: seq<WebsiteLink>): seq<WebsiteLink> {
    Filter(links, OfType(Admin))
  }

  /** `websiteLinks` and `adminLinks` split the company's links: they are
      disjoint, each keeps the original order, and together they hold every
      link exactly as often as the company does. */
  lemma LinksPartition(links: seq<WebsiteLink>)
    ensures multiset(WebsiteTypeLinks(links)) + multiset(AdminTypeLinks(links)) == multiset(links)
    ensures |WebsiteTypeLinks(links)| + |AdminTypeLinks(links)| == |links|
    ensures forall l :: l in WebsiteTypeLinks(links) ==> l !in AdminTypeLinks(links)
    ensures IsSubsequence(WebsiteTypeLinks(links), links) && IsSubsequence(AdminTypeLinks(links), links)
    ensures forall l :: l in WebsiteTypeLinks(links) <==> l in links && l.link_type == Website
    ensures forall l :: l in AdminTypeLinks(links) <==> l in links && l.link_type == Admin
  {
    FilterPartition(links, OfType(Website), OfType(Admin));
    FilterIsSubsequence(links, OfType(Website));
    FilterIsSubsequence(links, OfType(Admin));
    forall l | l in links
      ensures l in WebsiteTypeLinks(links) || l in AdminTypeLinks(links)
    {
      if l.link_type == Website {
        FilterComplete(links, OfType(Website), l);
      } else {
        FilterComplete(links, OfType(Admin), l);
      }
    }
  }

  /** `hasMore`. */
  function HasMore(c: CompanyWithRelations): bool {
    |WebsiteTypeLinks(c.website_links)| > 1 || |AdminTypeLinks(c.website_links)| > 0 || |c.apps| > 0
  }

  /** `websiteLinks[0]`, undefined when there is none. */
  function PrimaryLink(links: seq<WebsiteLink>): Option<WebsiteLink> {
    var w := WebsiteTypeLinks(links);
    if |w| > 0 then Some(w[0]) else None
  }

  /** The primary link is the first website-type link of the company, and
      there is none exactly when the company has no website-type link. */
  lemma PrimaryIsFirstWebsiteLink(links: seq<WebsiteLink>)
    ensures PrimaryLink(links).None? <==> forall i :: 0 <= i < |links| ==> links[i].link_type != Website
    ensures PrimaryLink(links).Some? ==>
              exists i :: 0 <= i < |links| && links[i] == PrimaryLink(links).value
                          && links[i].link_type == Website
                          && forall j :: 0 <= j < i ==> links[j].link_type != Website
  {
    FilterHeadIsFind(links, OfType(Website));
  }

  /** One entry of the collapsible section. */
  datatype CardItem = ExtraSite(link: WebsiteLink) | AdminPanel(link: WebsiteLink) | Download(app: App)

  function Sites(s: seq<WebsiteLink>): (r: seq<CardItem>)
    ensures |r| == |s| && forall i :: 0 <= i < |s| ==> r[i] == ExtraSite(s[i])
  {
    seq(|s|, i requires 0 <= i < |s| => ExtraSite(s[i]))
  }

  function Panels(s: seq<WebsiteLink>): (r: seq<CardItem>)
    ensures |r| == |s| && forall i :: 0 <= i < |s| ==> r[i] == AdminPanel(s[i])
  {
    seq(|s|, i requires 0 <= i < |s| => AdminPanel(s[i]))
  }

  function Downloads(s: seq<App>): (r: seq<CardItem>)
    ensures |r| == |s| && forall i :: 0 <= i < |s| ==> r[i] == Download(s[i])
  {
    seq(|s|, i requires 0 <= i < |s| => Download(s[i]))
  }

  /** The file name an app download is saved under: `${app_name}.apk`. */
  function DownloadFileName(a: App): (name: string)
    ensures EndsWith(name, ".apk") && |name| == |a.app_name| + 4 && name[..|a.app_name|] == a.app_name
  {
    a.app_name + ".apk"
  }

  /** The collapsible content: website links after the first
      (`slice(1)`, empty when there is none), then admin links, then apps. */
  function CollapsibleItems(c: CompanyWithRelations): seq<CardItem> {
    var w := WebsiteTypeLinks(c.website_links);
    Sites(if |w| == 0 then [] else w[1..]) + Panels(AdminTypeLinks(c.website_links)) + Downloads(c.apps)
  }

  /** The show-more section exists exactly when it has something to show. */
  lemma HasMoreIffItems(c: CompanyWithRelations)
    ensures HasMore(c) <==> |CollapsibleItems(c)| > 0
  {
  }

  /** Every link of the company is shown exactly once on the card: as the
      primary button, as an extra site or as an admin panel entry. */
  lemma {:induction false} EveryLinkShownOnce(c: CompanyWithRelations)
    ensures var w := WebsiteTypeLinks(c.website_links);
      var primary := match PrimaryLink(c.website_links) case Some(p) => [p] case None => [];
      var extra := if |w| == 0 then [] else w[1..];
      multiset(primary + extra + AdminTypeLinks(c.website_links)) == multiset(c.website_links)
  {
    var w := WebsiteTypeLinks(c.website_links);
    LinksPartition(c.website_links);
    if |w| > 0 {
      assert [w[0]] + w[1..] == w;
    }
  }

  /** `websiteLinks.length - 1 + adminLinks.length + company.apps.length`,
      the number printed on the "Show more" button, as written. */
  function ShowMoreCount(c: CompanyWithRelations): int {
    |WebsiteTypeLinks(c.website_links)| - 1 + |AdminTypeLinks(c.website_links)| + |c.apps|
  }

  /** With at least one website-type link the printed count is the number of
      entries the section lists. */
  lemma ShowMoreCountWithWebsiteLink(c: CompanyWithRelations)
    requires |WebsiteTypeLinks(c.website_links)| > 0
    ensures ShowMoreCount(c) == |CollapsibleItems(c)|
  {
  }

  /** Without one, the section still opens (for an admin link or an app) but
      the printed count is one short of what it lists. */
  lemma ShowMoreCountWithoutWebsiteLink(c: CompanyWithRelations)
    requires |WebsiteTypeLinks(c.website_links)| == 0 && HasMore(c)
    ensures ShowMoreCount(c) == |CollapsibleItems(c)| - 1
  {
  }

  /** A company whose only link is an admin panel: the button reads
      "Show more (0)" above one entry. */
  lemma ShowMoreCountCounterexample()
    ensures var link := WebsiteLink("l1", "c1", "Back office", "https://admin.example", Admin, "");
      var c := CompanyWithRelations("c1", "Acme", None, true, "", "", [link], []);
      HasMore(c) && ShowMoreCount(c) == 0 && |CollapsibleItems(c)| == 1
  {
    var link := WebsiteLink("l1", "c1", "Back office", "https://admin.example", Admin, "");
    assert WebsiteTypeLinks([link]) == [];
    assert AdminTypeLinks([link]) == [link];
  }

  /** The count the button evidently means: the website links beyond the
      primary one (never fewer than none), plus admin links and apps. It is
      the number of listed entries in every case, and agrees with the count
      as written whenever a website-type link exists. */
  function CorrectedShowMoreCount(c: CompanyWithRelations): (n: nat)
    ensures n == |CollapsibleItems(c)|
    ensures |WebsiteTypeLinks(c.website_links)| > 0 ==> n == ShowMoreCount(c)
  {
    var w := |WebsiteTypeLinks(c.website_links)|;
    (if w == 0 then 0 else w - 1) + |AdminTypeLinks(c.website_links)| + |c.apps|
  }

  /** A count badge (`3 sites`, `1 app`). */
  datatype Badge = Badge(count: nat, text: string)

  /** Shown only for a positive count; the noun takes an "s" exactly when
      the count exceeds one. */
  function CountBadge(n: nat, noun: string): (b: Option<Badge>)
    ensures b.Some? <==> n >= 1
    ensures b.Some? ==> b.value.count == n
    ensures b.Some? ==> |noun| <= |b.value.text| && b.value.text[..|noun|] == noun
                        && (b.value.text == noun <==> n == 1)
                        && (b.value.text == noun + "s" <==> n > 1)
  {
    if n == 0 then None
    else if n > 1 then Some(Badge(n, noun + "s"))
    else Some(Badge(n, noun))
  }

  /** Label of the collapsible trigger. */
  datatype Toggle = ShowMore(count: int) | ShowLess

  datatype MoreSection = MoreSection(toggle: Toggle, visible: seq<CardItem>)

  datatype CardView = CardView(
    theme: Theme,
    logo: Option<string>,          // the logo image, else the building icon
    siteBadge: Option<Badge>,
    appBadge: Option<Badge>,
    primary: Option<WebsiteLink>,  // the always-visible button
    more: Option<MoreSection>)

  /** The card for one company, with the collapsible open or closed. */
  function RenderCard(c: CompanyWithRelations, isOpen: bool): (v: CardView)
    requires |c.id| > 0
    ensures v.theme == ThemeOf(c.id)
    ensures v.logo.Some? <==> Truthy(c.logo_url)
    ensures v.logo.Some? ==> v.logo == c.logo_url
    ensures v.siteBadge.Some? <==> exists l :: l in c.website_links && l.link_type == Website
    ensures v.appBadge.Some? <==> |c.apps| > 0
    ensures v.primary.Some? <==> v.siteBadge.Some?
    ensures v.primary == PrimaryLink(c.website_links)
    ensures v.siteBadge == CountBadge(|WebsiteTypeLinks(c.website_links)|, "site")
    ensures v.appBadge == CountBadge(|c.apps|, "app")
    ensures v.more.Some? <==> |CollapsibleItems(c)| > 0
    ensures v.more.Some? ==> v.more.value.visible == (if isOpen then CollapsibleItems(c) else [])
    ensures v.more.Some? ==> v.more.value.toggle == (if isOpen then ShowLess else ShowMore(ShowMoreCount(c)))
  {
    var w := WebsiteTypeLinks(c.website_links);
    LinksPartition(c.website_links);
    PrimaryIsFirstWebsiteLink(c.website_links);
    HasMoreIffItems(c);
    CardView(
      ThemeOf(c.id),
      if Truthy(c.logo_url) then c.logo_url else None,
      CountBadge(|w|, "site"),
      CountBadge(|c.apps|, "app"),
      PrimaryLink(c.website_links),
      if HasMore(c) then
        Some(MoreSection(if isOpen then ShowLess else ShowMore(ShowMoreCount(c)),
                         if isOpen then CollapsibleItems(c) else []))
      else None)
  }
}
