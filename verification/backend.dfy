/** The hosted store as the application sees it: every request is recorded
    as a `Call`, every reply is an input value. */
module Backend {
  import opened Wrappers
  import opened Database

  datatype Table = Companies | WebsiteLinks | Apps

  function TableName(t: Table): string {
    match t
    case Companies => "companies"
    case WebsiteLinks => "website_links"
    case Apps => "apps"
  }

  /** Object-storage buckets: "company-logos" and "apk-files". */
  datatype Bucket = CompanyLogos | ApkFiles

  /** A file the browser handed to an `<input type="file">`. */
  datatype File = File(name: string, bytes: seq<bv8>)

  /** The column values an update or insert writes. */
  datatype Row =
    | CompanyRow(name: string, is_active: bool, logo_url: Option<string>)
    | LinkRow(company_id: string, title: string, url: string, link_type: LinkType)
    | AppRow(company_id: string, app_name: string, apk_file_url: string)

  datatype Call =
    | Upload(bucket: Bucket, key: string, file: File)
    | GetPublicUrl(bucket: Bucket, key: string)
    | Update(table: Table, id: string, row: Row)
    | Insert(table: Table, row: Row)
    | Delete(table: Table, id: string)
  {
    predicate WritesRow() { Update? || Insert? }
  }

  /** The reply to an upload, update, insert or delete: `None` when the
      store reported no error, otherwise the error's message. */
  type Reply = Option<string>

  /** The reply to a `select`: the error, or the (possibly null) data. */
  datatype Fetch<T> = Fetched(data: Option<seq<T>>) | FetchFailed(message: string)

  /** `data || []` of a successful select. */
  function Rows<T>(f: Fetch<T>): seq<T>
    requires f.Fetched?
  {
    f.data.GetOr([])
  }

  datatype Toast = Toast(title: string, description: Option<string>, destructive: bool)

  /** The toast every `catch (error)` block shows. */
  function ErrorToast(message: string): Toast {
    Toast("Error", Some(message), true)
  }

  /** What one form submission did: the remote calls in order, the toasts
      shown, and whether `onSuccess()` and `onClose()` were invoked. */
  datatype Submission = Submission(calls: seq<Call>, toasts: seq<Toast>, succeeded: bool)
  {
    /** Some update or insert was issued. */
    predicate Wrote() {
      exists i :: 0 <= i < |calls| && calls[i].WritesRow()
    }
  }

  /** A submission the form validation stopped: field messages only. */
  const Rejected := Submission([], [], false)

  /** The last step shared by every form: the row write, then either the
      success toast and the callbacks, or the error toast. */
  function Finish(before: seq<Call>, write: Call, db: Reply, successTitle: string): (r: Submission)
    requires write.WritesRow()
    ensures r.calls == before + [write]
    ensures r.succeeded <==> db.None?
    ensures db.None? ==> r.toasts == [Toast(successTitle, None, false)]
    ensures db.Some? ==> r.toasts == [ErrorToast(db.value)]
  {
    if db.Some? then Submission(before + [write], [ErrorToast(db.value)], false)
    else Submission(before + [write], [Toast(successTitle, None, false)], true)
  }
}
