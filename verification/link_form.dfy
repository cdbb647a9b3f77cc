/** The add/edit website-link dialog: validation and submission. */
module LinkForm {
  import opened Wrappers
  import opened Text
  import opened Database
  import opened Backend
  import opened Seqs

  /** The raw form fields; `link_type` is the text of the type select. */
  datatype LinkFormData = LinkFormData(company_id: string, title: string, url: string, link_type: string)

  /** The fields after `linkSchema` accepted them. */
  datatype LinkInput = LinkInput(company_id: string, title: string, url: string, link_type: LinkType)

  /** `linkSchema`: a selected company, a title of 1 to 100 characters, a URL
      (zod's check, passed in as `isUrl`) and one of the two link types. */
  function ParseLinkForm(d: LinkFormData, isUrl: string -> bool): (r: Option<LinkInput>)
    ensures r.Some? <==> Utf16Length(d.company_id) >= 1 && LengthBetween(d.title, 1, 100)
                         && isUrl(d.url) && (d.link_type == "website" || d.link_type == "admin")
    ensures r.Some? ==> r.value.company_id == d.company_id && r.value.title == d.title
                        && r.value.url == d.url && LinkTypeName(r.value.link_type) == d.link_type
  {
    var t := ParseLinkType(d.link_type);
    if Utf16Length(d.company_id) >= 1 && LengthBetween(d.title, 1, 100) && isUrl(d.url) && t.Some? then
      Some(LinkInput(d.company_id, d.title, d.url, t.value))
    else None
  }

  /** The form's default values: the edited link's, or empty fields and the
      website type. */
  function LinkDefaults(link: Option<WebsiteLink>): (d: LinkFormData)
    ensures link.None? ==> d == LinkFormData("", "", "", "website")
    ensures link.Some? ==> d == LinkFormData(link.value.company_id, link.value.title, link.value.url,
                                             LinkTypeName(link.value.link_type))
  {
    LinkFormData(if link.Some? && link.value.company_id != "" then link.value.company_id else "",
                 if link.Some? && link.value.title != "" then link.value.title else "",
                 if link.Some? && link.value.url != "" then link.value.url else "",
                 if link.Some? then LinkTypeName(link.value.link_type) else "website")
  }

  /** The four columns both the update and the insert write. */
  function LinkFields(d: LinkInput): Row {
    LinkRow(d.company_id, d.title, d.url, d.link_type)
  }

  /** `onSubmit` for validated data. */
  function SubmitLink(link: Option<WebsiteLink>, d: LinkInput, db: Reply): (r: Submission)
    ensures |r.calls| == 1
    ensures link.Some? ==> r.calls[0] == Update(WebsiteLinks, link.value.id, LinkFields(d))
    ensures link.None? ==> r.calls[0] == Insert(WebsiteLinks, LinkFields(d))
    ensures r.calls[0].row == LinkRow(d.company_id, d.title, d.url, d.link_type)
    ensures r.succeeded <==> db.None?
    ensures db.Some? ==> r.toasts == [ErrorToast(db.value)]
    ensures db.None? ==> r.toasts == [Toast(if link.Some? then "Link updated successfully"
                                            else "Link created successfully", None, false)]
  {
    if link.Some? then
      Finish([], Update(WebsiteLinks, link.value.id, LinkFields(d)), db, "Link updated successfully")
    else
      Finish([], Insert(WebsiteLinks, LinkFields(d)), db, "Link created successfully")
  }

  /** `form.handleSubmit(onSubmit)`: a malformed field (a URL zod refuses,
      say) stops the submission before any remote call. */
  function HandleSubmitLink(link: Option<WebsiteLink>, d: LinkFormData, isUrl: string -> bool, db: Reply)
    : (r: Submission)
    ensures ParseLinkForm(d, isUrl).None? <==> r.calls == []
    ensures ParseLinkForm(d, isUrl).None? ==> !r.succeeded && r.toasts == []
    ensures ParseLinkForm(d, isUrl).Some? ==> r == SubmitLink(link, ParseLinkForm(d, isUrl).value, db)
  {
    match ParseLinkForm(d, isUrl)
    case None => Rejected
    case Some(input) => SubmitLink(link, input, db)
  }

  /** The default values the dashboard's single mount computes: the form is
      mounted once, while no link is being edited, and never reset. */
  const MountedDefaults: LinkFormData := LinkDefaults(None)

  /** As written, the dialog opens with the values last entered in it: the
      form keeps them across closing and saving, and holds the mount's
      defaults only until the first entry. */
  function OpenedValues(entered: seq<LinkFormData>): (d: LinkFormData)
    ensures |entered| == 0 ==> d == MountedDefaults
    ensures |entered| > 0 ==> d == entered[|entered| - 1]
  {
    Latest(entered, MountedDefaults)
  }

  /** As written, on the first opening after the mount the edit dialog is
      not pre-filled: its values are the mount's empty fields, so saving it
      untouched is refused before any remote call. */
  lemma EditDialogNotPrefilledAsWritten(l: WebsiteLink, isUrl: string -> bool, db: Reply)
    ensures OpenedValues([]) == LinkFormData("", "", "", "website")
    ensures HandleSubmitLink(Some(l), OpenedValues([]), isUrl, db) == Rejected
  {
  }

  /** As written, after any earlier valid entry (a link just added, say),
      opening Edit on `l` and saving untouched writes that entry's four
      fields onto `l`'s row. */
  lemma EditAfterEntryWritesCarriedValues(l: WebsiteLink, entered: seq<LinkFormData>, isUrl: string -> bool)
    requires |entered| > 0 && ParseLinkForm(entered[|entered| - 1], isUrl).Some?
    ensures var prev := ParseLinkForm(entered[|entered| - 1], isUrl).value;
      HandleSubmitLink(Some(l), OpenedValues(entered), isUrl, None).calls
      == [Update(WebsiteLinks, l.id, LinkFields(prev))]
  {
  }

  /** Corrected: with the default values computed whenever the dialog opens,
      saving an edited link without changes writes its four fields back. */
  lemma UnchangedEditWritesBack(l: WebsiteLink, isUrl: string -> bool)
    requires Utf16Length(l.company_id) >= 1 && LengthBetween(l.title, 1, 100) && isUrl(l.url)
    ensures var r := HandleSubmitLink(Some(l), LinkDefaults(Some(l)), isUrl, None);
      r.calls == [Update(WebsiteLinks, l.id, LinkRow(l.company_id, l.title, l.url, l.link_type))]
      && r.succeeded
  {
    var d := LinkDefaults(Some(l));
    var p := ParseLinkForm(d, isUrl);
    assert p.Some?;
    assert ParseLinkType(LinkTypeName(l.link_type)) == Some(l.link_type);
  }
}
