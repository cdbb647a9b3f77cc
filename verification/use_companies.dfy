/** The public read: active companies with their links and apps attached. */
module UseCompanies {
  import opened Wrappers
  import opened Database
  import opened Backend
  import opened Seqs

  /** The react-query key of the public read. */
  const QueryKey: seq<string> := ["companies"]

  function OwnedLink(companyId: string): WebsiteLink -> bool {
    (l: WebsiteLink) => l.company_id == companyId
  }

  function OwnedApp(companyId: string): App -> bool {
    (a: App) => a.company_id == companyId
  }

  /** `companies.map(...)`: each company with the fetched links and apps whose
      `company_id` is its id. */
  function Aggregate(companies: seq<Company>, links: seq<WebsiteLink>, apps: seq<App>)
    : (r: seq<CompanyWithRelations>)
    ensures |r| == |companies|
    ensures forall i :: 0 <= i < |r| ==> r[i].Base() == companies[i]
    ensures forall i :: 0 <= i < |r| ==>
              r[i].website_links == Filter(links, OwnedLink(companies[i].id))
              && r[i].apps == Filter(apps, OwnedApp(companies[i].id))
  {
    if |companies| == 0 then []
    else
      [WithRelations(companies[0], Filter(links, OwnedLink(companies[0].id)),
                     Filter(apps, OwnedApp(companies[0].id)))]
      + Aggregate(companies[1..], links, apps)
  }

  /** One run of the query: the tables read, in order, and the outcome. */
  datatype Read = Read(queried: seq<Table>, result: Result<seq<CompanyWithRelations>>)

  /** The `queryFn` of `useCompanies`. `companiesReply` is the store's answer
      to the active-companies select (already filtered and ordered by name). */
  function FetchPublicCompanies(companiesReply: Fetch<Company>, linksReply: Fetch<WebsiteLink>,
                                appsReply: Fetch<App>): (r: Read)
    // the company read always happens first; a failure ends the read at once
    ensures |r.queried| >= 1 && r.queried[0] == Companies
    ensures companiesReply.FetchFailed? ==> r == Read([Companies], Err(companiesReply.message))
    // no active company: empty answer and nothing else is read
    ensures companiesReply.Fetched? && |Rows(companiesReply)| == 0 ==> r == Read([Companies], Ok([]))
    // otherwise links, then apps are read; either failing aborts the whole read
    ensures companiesReply.Fetched? && |Rows(companiesReply)| > 0 ==>
              match linksReply
              case FetchFailed(m) => r == Read([Companies, WebsiteLinks], Err(m))
              case Fetched(_) =>
                r.queried == [Companies, WebsiteLinks, Apps]
                && (appsReply.FetchFailed? ==> r.result == Err(appsReply.message))
    // three successful fetches with companies present give the join
    ensures companiesReply.Fetched? && |Rows(companiesReply)| > 0 && linksReply.Fetched? && appsReply.Fetched? ==>
              r.result == Ok(Aggregate(Rows(companiesReply), Rows(linksReply), Rows(appsReply)))
    // a result is only ever the complete join
    ensures r.result.Ok? ==>
              companiesReply.Fetched? &&
              (|Rows(companiesReply)| == 0 || (linksReply.Fetched? && appsReply.Fetched?)) &&
              r.result.value == (if |Rows(companiesReply)| == 0 then []
                                 else Aggregate(Rows(companiesReply), Rows(linksReply), Rows(appsReply)))
  {
    match companiesReply
    case FetchFailed(m) => Read([Companies], Err(m))
    case Fetched(_) =>
      var companies := Rows(companiesReply);
      if |companies| == 0 then Read([Companies], Ok([]))
      else
        match linksReply
        case FetchFailed(m) => Read([Companies, WebsiteLinks], Err(m))
        case Fetched(_) =>
          match appsReply
          case FetchFailed(m) => Read([Companies, WebsiteLinks, Apps], Err(m))
          case Fetched(_) =>
            Read([Companies, WebsiteLinks, Apps],
                 Ok(Aggregate(companies, Rows(linksReply), Rows(appsReply))))
  }

  /** Each entry's links are exactly the fetched links carrying its id: none
      missing, none extra, each as often as fetched, in fetched order. The
      same holds for apps. */
  lemma AggregateExact(companies: seq<Company>, links: seq<WebsiteLink>, apps: seq<App>, i: nat)
    requires i < |companies|
    ensures var e := Aggregate(companies, links, apps)[i];
      && e.id == companies[i].id
      && (forall l :: l in e.website_links <==> l in links && l.company_id == e.id)
      && (forall l :: multiset(e.website_links)[l] == if l.company_id == e.id then multiset(links)[l] else 0)
      && IsSubsequence(e.website_links, links)
      && (forall a :: a in e.apps <==> a in apps && a.company_id == e.id)
      && (forall a :: multiset(e.apps)[a] == if a.company_id == e.id then multiset(apps)[a] else 0)
      && IsSubsequence(e.apps, apps)
  {
    var e := Aggregate(companies, links, apps)[i];
    var pl := OwnedLink(companies[i].id);
    var pa := OwnedApp(companies[i].id);
    assert e.Base() == companies[i];
    forall l | l in links && l.company_id == e.id
      ensures l in e.website_links
    {
      FilterComplete(links, pl, l);
    }
    forall l
      ensures multiset(e.website_links)[l] == if l.company_id == e.id then multiset(links)[l] else 0
    {
      FilterCount(links, pl, l);
    }
    FilterIsSubsequence(links, pl);
    forall a | a in apps && a.company_id == e.id
      ensures a in e.apps
    {
      FilterComplete(apps, pa, a);
    }
    forall a
      ensures multiset(e.apps)[a] == if a.company_id == e.id then multiset(apps)[a] else 0
    {
      FilterCount(apps, pa, a);
    }
    FilterIsSubsequence(apps, pa);
  }

  /** A link or app whose `company_id` names no company of the read appears
      in no entry; in particular one of an inactive company is left out. */
  lemma OrphansExcluded(companies: seq<Company>, links: seq<WebsiteLink>, apps: seq<App>)
    ensures var r := Aggregate(companies, links, apps);
      forall i :: 0 <= i < |r| ==>
        (forall l :: l in r[i].website_links ==> exists c :: c in companies && c.id == l.company_id)
        && (forall a :: a in r[i].apps ==> exists c :: c in companies && c.id == a.company_id)
  {
    var r := Aggregate(companies, links, apps);
    forall i | 0 <= i < |r|
      ensures forall l :: l in r[i].website_links ==> exists c :: c in companies && c.id == l.company_id
      ensures forall a :: a in r[i].apps ==> exists c :: c in companies && c.id == a.company_id
    {
      assert companies[i] in companies;
    }
  }

  /** Given the store's `is_active = true` filter, every company shown is active. */
  lemma OnlyActiveShown(companiesReply: Fetch<Company>, linksReply: Fetch<WebsiteLink>, appsReply: Fetch<App>)
    requires companiesReply.Fetched?
    requires forall c :: c in Rows(companiesReply) ==> c.is_active
    ensures var r := FetchPublicCompanies(companiesReply, linksReply, appsReply);
      r.result.Ok? ==> forall e :: e in r.result.value ==> e.is_active
  {
    var r := FetchPublicCompanies(companiesReply, linksReply, appsReply);
    if r.result.Ok? && |Rows(companiesReply)| > 0 {
      var cs := Rows(companiesReply);
      forall e | e in r.result.value
        ensures e.is_active
      {
        var i :| 0 <= i < |r.result.value| && r.result.value[i] == e;
        assert e.Base() == cs[i];
        assert cs[i] in cs;
      }
    }
  }
}
