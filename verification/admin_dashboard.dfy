/** The helpers of the admin dashboard: cache refresh, deletion, company-name
    lookup and the small display decisions. */
module AdminDashboard {
  import opened Wrappers
  import opened Text
  import opened Database
  import opened Backend
  import opened Seqs
  import UseCompanies

  const AdminCompaniesKey: seq<string> := ["admin-companies"]
  const AdminLinksKey: seq<string> := ["admin-links"]
  const AdminAppsKey: seq<string> := ["admin-apps"]

  /** Every query key the application reads through react-query. */
  const AllQueryKeys: set<seq<string>> := {AdminCompaniesKey, AdminLinksKey, AdminAppsKey, UseCompanies.QueryKey}

  /** `refreshData`: the keys invalidated after a mutation, in order. Every
      cached read is invalidated, each once, whichever entity changed. */
  function RefreshData(): (keys: seq<seq<string>>)
    ensures |keys| == 4
    ensures forall i, j :: 0 <= i < j < |keys| ==> keys[i] != keys[j]
    ensures forall k :: k in keys <==> k in AllQueryKeys
  {
    [AdminCompaniesKey, AdminLinksKey, AdminAppsKey, UseCompanies.QueryKey]
  }

  /** The entity a delete button refers to. */
  datatype EntityKind = CompanyKind | LinkKind | AppKind

  function KindName(k: EntityKind): string {
    match k
    case CompanyKind => "company"
    case LinkKind => "link"
    case AppKind => "app"
  }

  /** The entity whose rows a table holds. */
  function KindOfTable(t: Table): EntityKind {
    match t
    case Companies => CompanyKind
    case WebsiteLinks => LinkKind
    case Apps => AppKind
  }

  /** The table a delete of this kind targets. Distinct kinds map to
      distinct tables: the table determines the kind back. */
  function TableFor(k: EntityKind): (t: Table)
    ensures KindOfTable(t) == k
    ensures TableName(t) == (match k
                             case CompanyKind => "companies"
                             case LinkKind => "website_links"
                             case AppKind => "apps")
  {
    match k
    case CompanyKind => Companies
    case LinkKind => WebsiteLinks
    case AppKind => Apps
  }

  /** The success toast title: the kind, capitalised, then " deleted". */
  function DeletedTitle(k: EntityKind): (title: string)
    ensures title == (match k
                      case CompanyKind => "Company deleted"
                      case LinkKind => "Link deleted"
                      case AppKind => "App deleted")
  {
    Capitalize(KindName(k)) + " deleted"
  }

  /** What `handleDelete` did: the call, the toast, the keys invalidated. */
  datatype Deletion = Deletion(calls: seq<Call>, toast: Toast, invalidated: seq<seq<string>>)

  /** `handleDelete(type, id)`: one delete on the kind's table; on success
      the toast and a full refresh, on failure the error toast only. */
  function HandleDelete(k: EntityKind, id: string, db: Reply): (r: Deletion)
    ensures |r.calls| == 1 && r.calls[0].Delete? && r.calls[0].id == id
    ensures KindOfTable(r.calls[0].table) == k
    ensures db.None? ==> r.toast == Toast(DeletedTitle(k), None, false)
                         && (forall key :: key in r.invalidated <==> key in AllQueryKeys)
    ensures db.Some? ==> r.toast == ErrorToast(db.value) && r.invalidated == []
  {
    var call := Delete(TableFor(k), id);
    if db.Some? then Deletion([call], ErrorToast(db.value), [])
    else Deletion([call], Toast(DeletedTitle(k), None, false), RefreshData())
  }

  function HasId(id: string): Company -> bool {
    (c: Company) => c.id == id
  }

  /** `getCompanyName`: the name of the first company with that id, or
      "Unknown" when there is none or its name is empty. */
  function GetCompanyName(companies: seq<Company>, id: string): (name: string)
    ensures (forall i :: 0 <= i < |companies| ==> companies[i].id != id) ==> name == "Unknown"
    ensures forall i :: 0 <= i < |companies| && companies[i].id == id
                        && (forall j :: 0 <= j < i ==> companies[j].id != id) ==>
                          name == (if companies[i].name == "" then "Unknown" else companies[i].name)
    ensures name != ""
  {
    match Find(companies, HasId(id))
    case None => "Unknown"
    case Some(c) => if c.name == "" then "Unknown" else c.name
  }

  /** The status badge text of a company row. */
  function StatusLabel(is_active: bool): (s: string)
    ensures s == "Active" <==> is_active
    ensures s == "Inactive" <==> !is_active
  {
    if is_active then "Active" else "Inactive"
  }

  /** "Add Link" and "Add App" need a company to attach to; "Add Company"
      is always enabled. */
  function AddLinkOrAppEnabled(companies: seq<Company>): (enabled: bool)
    ensures enabled <==> exists c :: c in companies
  {
    if |companies| == 0 then false
    else assert companies[0] in companies; true
  }
}
