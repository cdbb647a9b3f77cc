/** The rows of the three tables and the joined view read by the public page. */
module Database {
  import opened Wrappers

  datatype Company = Company(
    id: string,
    name: string,
    logo_url: Option<string>,   // nullable column
    is_active: bool,
    created_at: string,
    updated_at: string)

  /** The `type` column of a website link: exactly two values exist. */
  datatype LinkType = Website | Admin

  /** Parses the stored `type` text; anything but the two literals is refused. */
  function ParseLinkType(s: string): (r: Option<LinkType>)
    ensures r == Some(Website) <==> s == "website"
    ensures r == Some(Admin) <==> s == "admin"
    ensures r.None? <==> s != "website" && s != "admin"
  {
    if s == "website" then Some(Website)
    else if s == "admin" then Some(Admin)
    else None
  }

  /** The stored text of a link type; parsing it gives the type back. */
  function LinkTypeName(t: LinkType): (s: string)
    ensures ParseLinkType(s) == Some(t)
  {
    match t
    case Website => "website"
    case Admin => "admin"
  }

  /** Every link belongs to exactly one company through `company_id`.
      (`type` is a keyword in Dafny, so the column is named `link_type`.) */
  datatype WebsiteLink = WebsiteLink(
    id: string,
    company_id: string,
    title: string,
    url: string,
    link_type: LinkType,
    created_at: string)

  /** Every app belongs to exactly one company; its APK URL is never null. */
  datatype App = App(
    id: string,
    company_id: string,
    app_name: string,
    apk_file_url: string,
    created_at: string)

  /** A company with its links and apps attached: every `Company` field plus
      the two lists. */
  datatype CompanyWithRelations = CompanyWithRelations(
    id: string,
    name: string,
    logo_url: Option<string>,
    is_active: bool,
    created_at: string,
    updated_at: string,
    website_links: seq<WebsiteLink>,
    apps: seq<App>)
  {
    /** The `Company` part of the record. */
    function Base(): Company {
      Company(id, name, logo_url, is_active, created_at, updated_at)
    }
  }

  /** `{ ...company, website_links, apps }`. */
  function WithRelations(c: Company, links: seq<WebsiteLink>, apps: seq<App>): (r: CompanyWithRelations)
    ensures r.Base() == c
    ensures r.website_links == links && r.apps == apps
  {
    CompanyWithRelations(c.id, c.name, c.logo_url, c.is_active, c.created_at, c.updated_at, links, apps)
  }
}
