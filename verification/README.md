# Company directory portal — functional model

This project models the logic behind a small company-directory web
application. A public page lists the active companies. Each company shows
its logo, its website links (of type `website` or `admin`) and its
downloadable Android apps. An admin-only dashboard creates, edits and
deletes companies, links and apps, and it uploads logos and APK files to
object storage.

Every call to the hosted store (select, insert, update, delete, storage
upload, `getPublicUrl`) is modelled as data. A request becomes a `Call`
recorded in order. A reply becomes an input value: `Reply` is the error
message or nothing, and `Fetch` is the data or an error. `getPublicUrl` is a
function parameter. `crypto.randomUUID()`, `URL.createObjectURL` and zod's
URL check are also inputs. Each form's `onSubmit` is a pure function from
(edited entity or none, form data, pending file, uuid, replies) to a
`Submission`: the calls made, the toasts shown, and whether
`onSuccess()`/`onClose()` ran.

Modules follow the source files:

- `Database`: the table rows. A link's type is a two-constructor datatype,
  a company's `logo_url` is an `Option`, and an app's `apk_file_url` is a
  plain string. `CompanyWithRelations` carries every company column plus
  the two lists. Each link and app has a single `company_id`. The TypeScript
  field `type` is named `link_type`, because `type` is a Dafny keyword.
- `UseCompanies`: the public read with its early exit, its error
  short-circuits, and the join by `company_id`.
- `CompanyCard`: the colour index, the website/admin split, the primary
  link, the "show more" section, and the badges.
- `CompanyForm`, `AppForm`, `LinkForm`: validation, defaults, the file
  pickers, upload keys, the choice between update and insert, and outcomes.
- `AdminDashboard`: cache refresh, delete, company-name lookup, the status
  badge, and enabling the add buttons.
- `AdminPage`: the access gate.
- Helpers: `Wrappers` (Option/Result), `Text` (JavaScript string
  behaviour), `Seqs` (`filter`/`find`), and `Backend` (calls, replies,
  toasts).

String lengths follow JavaScript. zod's `min`/`max` count UTF-16 code units
(`Text.Utf16Length`), and `charCodeAt(0)` gives the high surrogate for a
character outside the Basic Multilingual Plane (`Text.FirstCodeUnit`).
JavaScript `||` treats `""` like `null`; the model spells this out
(`Text.OrNull`, and the defaults functions).

## Model

| member | source | states |
|---|---|---|
| Database.ParseLinkType | src/types/database.ts:15 | only the texts "website" and "admin" are link types; every other text is refused |
| Database.LinkTypeName | src/types/database.ts:15 | the stored text of a link type parses back to the same type |
| Database.WithRelations | src/types/database.ts:27-30 | the joined record keeps every company field unchanged and adds exactly the given link and app lists |
| Seqs.Filter | src/hooks/useCompanies.ts:37-38 | a filter keeps only elements of the input that satisfy the predicate, and is never longer than the input |
| Seqs.Find | src/components/admin/AdminDashboard.tsx:103 | `find` returns nothing iff no element matches; otherwise it returns the element at the first matching index |
| Seqs.FilterComplete | src/hooks/useCompanies.ts:37-38 | a filter drops no element that satisfies the predicate |
| Seqs.FilterCount | src/hooks/useCompanies.ts:37-38 | each matching element is kept exactly as often as it occurs, and non-matching ones never |
| Seqs.FilterIsSubsequence | src/hooks/useCompanies.ts:37-38 | a filter keeps the input order |
| Seqs.FilterPartition | src/components/CompanyCard.tsx:50-51 | two complementary filters together hold every element exactly as often as the input |
| Seqs.FilterHeadIsFind | src/components/CompanyCard.tsx:53 | the first element kept by a filter is the element `find` returns; the filter is empty iff `find` finds nothing |
| UseCompanies.Aggregate | src/hooks/useCompanies.ts:35-39 | one entry per company, in input order, with company fields preserved; entry i holds the links and apps whose company_id is company i's id |
| UseCompanies.FetchPublicCompanies | src/hooks/useCompanies.ts:8-40 | a company-fetch error ends the read after one query; no active company gives [] with no further query; a links or apps error aborts the whole read; any result is the full join |
| UseCompanies.AggregateExact | src/hooks/useCompanies.ts:37-38 | each entry's links are exactly the fetched links with its id (both directions, with multiplicity, in fetched order); the same holds for apps |
| UseCompanies.OrphansExcluded | src/hooks/useCompanies.ts:37-38 | a link or app whose company_id names no company of the read appears in no entry |
| UseCompanies.OnlyActiveShown | src/hooks/useCompanies.ts:10-14 | if the store returned only active companies, every company in the result is active |
| Text.Utf16Length | src/components/admin/CompanyForm.tsx:16 | the JavaScript length of a string lies between its character count and twice that, and is 0 only for "" |
| Text.Utf16LengthOfBmp | src/components/admin/CompanyForm.tsx:16 | for Basic Multilingual Plane text the JavaScript length is the character count |
| Text.FirstCodeUnit | src/components/CompanyCard.tsx:45 | `charCodeAt(0)` is a UTF-16 code unit: the character itself in the BMP, otherwise a high surrogate |
| Text.OrNull | src/components/admin/CompanyForm.tsx:59 | `x \|\| null` keeps a non-empty string and turns both null and "" into null |
| Text.Split | src/components/admin/CompanyForm.tsx:63 | split gives at least one part, no part holds the separator, and joining the parts gives the input back |
| Text.ExtensionAfterLastDot | src/components/admin/CompanyForm.tsx:63 | `split(".").pop()` is the dot-free end of the name that follows its last "."; it is the whole name when there is no "." |
| Text.ExtensionOfDottedName | src/components/admin/CompanyForm.tsx:63 | for a name `base.ext` with a dot-free `ext`, the extension is `ext` |
| Text.Capitalize | src/components/admin/AdminDashboard.tsx:91 | capitalising keeps the length and the tail, and upper-cases the first character |
| CompanyCard.ColorIndex | src/components/CompanyCard.tsx:45 | for a non-empty id the colour index is in range for all three colour tables of length 6 |
| CompanyCard.ThemeOf | src/components/CompanyCard.tsx:14-48 | the gradient, icon colour and border colour come from the same row of the three tables |
| CompanyCard.SameFirstCharSameTheme | src/components/CompanyCard.tsx:45 | two ids with the same first character get the same colours |
| CompanyCard.LinksPartition | src/components/CompanyCard.tsx:50-51 | website links and admin links are disjoint, keep the original order, and together hold every link exactly once |
| CompanyCard.PrimaryIsFirstWebsiteLink | src/components/CompanyCard.tsx:53 | the primary link is the first link of type website; there is none iff the company has no website-type link |
| CompanyCard.HasMoreIffItems | src/components/CompanyCard.tsx:52 | `hasMore` holds iff the collapsible section would list at least one entry |
| CompanyCard.EveryLinkShownOnce | src/components/CompanyCard.tsx:93-146 | primary button, extra sites and admin entries together show every link of the company exactly once |
| CompanyCard.ShowMoreCountWithWebsiteLink | src/components/CompanyCard.tsx:116 | with at least one website link, the show-more count equals the number of listed entries |
| CompanyCard.ShowMoreCountWithoutWebsiteLink | src/components/CompanyCard.tsx:116 | without a website link (but with something to show), the printed count is one less than the entries listed |
| CompanyCard.ShowMoreCountCounterexample | src/components/CompanyCard.tsx:116 | a company with a single admin link shows "Show more (0)" above one entry |
| CompanyCard.CorrectedShowMoreCount | src/components/CompanyCard.tsx:116-164 | the intended count equals the number of listed entries in every case, and equals the written count when a website link exists |
| CompanyCard.DownloadFileName | src/components/CompanyCard.tsx:157 | an app downloads as its name followed by ".apk" |
| CompanyCard.CountBadge | src/components/CompanyCard.tsx:76-85 | a badge shows only for a count of at least 1; the noun gets an "s" iff the count exceeds 1 |
| CompanyCard.RenderCard | src/components/CompanyCard.tsx:55-170 | logo shown iff truthy; site badge iff a website-type link exists; primary button iff site badge; section iff entries exist, listing them only when open, with the written count when closed |
| CompanyForm.CompanyDefaults | src/components/admin/CompanyForm.tsx:37-40 | the default-values expression: empty name and active without a company, the company's own name and flag with one (the dashboard evaluates it only once, without a company) |
| CompanyForm.InitialLogoState | src/components/admin/CompanyForm.tsx:31-32 | the initial logo state: nothing pending, and a preview iff the given company has a non-empty logo (the dashboard creates it only once, without a company) |
| CompanyForm.HandleLogoChange | src/components/admin/CompanyForm.tsx:43-49 | a picked file becomes pending with its object URL as preview; no pick changes nothing; a pending file always has a preview |
| CompanyForm.RemoveLogo | src/components/admin/CompanyForm.tsx:51-54 | removing the logo clears both the pending file and the preview |
| CompanyForm.LogoKeyShape | src/components/admin/CompanyForm.tsx:63-64 | the upload key is the uuid, a ".", then the file name's text after its last "." |
| CompanyForm.SubmitCompany | src/components/admin/CompanyForm.tsx:56-112 | an upload error stops before any row write and callback; otherwise one write comes last, an update of the edited id iff editing; logo_url is the new upload's URL, null when removed, else the current logo; the callbacks run iff nothing failed |
| CompanyForm.HandleSubmitCompany | src/components/admin/CompanyForm.tsx:15-18 | a name outside 1..100 characters stops the submission before any call |
| CompanyForm.UnchangedEditWritesBack | src/components/admin/CompanyForm.tsx:37-99 | with the corrected per-opening dialog, saving an edited company unchanged writes back its name, flag and logo, and a new company is inserted without a logo |
| CompanyForm.RemovedLogoIsCleared | src/components/admin/CompanyForm.tsx:77-87 | removing an existing logo and saving writes a null logo_url |
| AppForm.AppDefaults | src/components/admin/AppForm.tsx:37-40 | the default-values expression: empty fields without an app, the app's own company and name with one (the dashboard evaluates it only once, without an app) |
| AppForm.HandleApkChange | src/components/admin/AppForm.tsx:43-56 | a non-".apk" file is refused with a toast and the pending file stays; only ".apk" files ever become pending |
| AppForm.ApkKey | src/components/admin/AppForm.tsx:74 | the upload key is the uuid followed by ".apk" |
| AppForm.SubmitApp | src/components/admin/AppForm.tsx:58-117 | a new app without an APK makes no call; an upload error prevents the write; the URL is the new upload's or the current one; update iff editing; the callbacks run iff the write succeeded |
| AppForm.HandleSubmitApp | src/components/admin/AppForm.tsx:15-18 | an empty company or an app name outside 1..100 characters stops the submission before any call |
| AppForm.CreatedAppHasUploadedApk | src/components/admin/AppForm.tsx:59-100 | a created app is inserted with the public URL of the APK uploaded in the same submission, never "" |
| AppForm.UnchangedEditWritesBack | src/components/admin/AppForm.tsx:70-93 | with the corrected per-opening dialog, saving an edited app without a new file writes its current fields, including the APK URL, back |
| LinkForm.ParseLinkForm | src/components/admin/LinkForm.tsx:15-20 | accepted iff the company is set, the title has 1..100 characters, the URL passes the URL check and the type is "website" or "admin" |
| LinkForm.LinkDefaults | src/components/admin/LinkForm.tsx:38-43 | the default-values expression: empty fields and type website without a link, the link's own values with one (the dashboard evaluates it only once, without a link) |
| LinkForm.SubmitLink | src/components/admin/LinkForm.tsx:46-87 | one call: an update of the edited link's id iff editing, else an insert, both writing the same four fields; the callbacks run iff the store reported no error |
| LinkForm.HandleSubmitLink | src/components/admin/LinkForm.tsx:15-20 | invalid data makes no remote call at all, and valid data always makes one |
| LinkForm.UnchangedEditWritesBack | src/components/admin/LinkForm.tsx:38-58 | with default values computed per opening (the corrected behaviour), saving an edited link unchanged writes its four fields back |
| CompanyForm.ReplayLogo | src/components/admin/CompanyForm.tsx:43-54 | the logo state after a run of picks and removals: cleared after a final removal, the picked file with its preview after a final pick, unchanged when nothing is picked or removed |
| CompanyForm.OpenedValues | src/components/admin/CompanyForm.tsx:35-41 | as written, a dialog opens with the values last entered, or the mount's defaults before any entry |
| CompanyForm.PreviewOnlyForPendingFile | src/components/admin/CompanyForm.tsx:43-54 | any run of picks and removals keeps the preview present exactly when a file is pending, given it starts that way |
| CompanyForm.EditClearsLogoAsWritten | src/components/admin/CompanyForm.tsx:31-32 | as written, with the logo state created at the dashboard mount, saving an edit of a company that has a logo without a pending file writes a null logo_url |
| CompanyForm.EditClearsLogoExample | src/components/admin/CompanyForm.tsx:76-79 | a concrete instance: company Acme with logo https://x/a.png, saved from the mounted dialog, is updated with a null logo |
| CompanyForm.EditDialogNotPrefilledAsWritten | src/components/admin/CompanyForm.tsx:35-41 | as written, on the first opening after the mount the edit dialog holds the mount's empty name, so saving an edit untouched is refused without a remote call |
| CompanyForm.PendingLogoReusedAsWritten | src/components/admin/CompanyForm.tsx:31 | as written, a logo picked once stays pending, and the next submission, for any company or a new one, uploads it first |
| CompanyForm.OpenCompanyDialog | src/components/admin/CompanyForm.tsx:31-40 | corrected: each opening starts with the edited company's name, flag and logo preview, and no pending file |
| AppForm.ReplayApk | src/components/admin/AppForm.tsx:43-56 | the pending APK after a run of file-input changes is the last .apk picked, or the initial one when no .apk was picked |
| AppForm.NonApkPicksKeepPending | src/components/admin/AppForm.tsx:45-54 | changes that pick no .apk file leave the pending APK unchanged |
| AppForm.PendingApkReusedAsWritten | src/components/admin/AppForm.tsx:32 | as written, after an .apk is picked, a later Add that picks no APK uploads the same file again instead of showing "APK Required" |
| AppForm.OpenedValues | src/components/admin/AppForm.tsx:35-41 | as written, a dialog opens with the values last entered, or the mount's defaults before any entry |
| AppForm.EditDialogNotPrefilledAsWritten | src/components/admin/AppForm.tsx:35-41 | as written, on the first opening after the mount the edit dialog holds the mount's empty fields, so saving an edit untouched is refused without a remote call |
| AppForm.OpenAppDialog | src/components/admin/AppForm.tsx:32-40 | corrected: each opening starts with the edited app's company and name, and no pending APK |
| AppForm.CorrectedCreateNeedsFreshApk | src/components/admin/AppForm.tsx:59-66 | with the corrected opening, a new app is refused with "APK Required" unless an .apk is picked in that opening |
| LinkForm.OpenedValues | src/components/admin/LinkForm.tsx:36-44 | as written, a dialog opens with the values last entered, or the mount's defaults before any entry |
| LinkForm.EditDialogNotPrefilledAsWritten | src/components/admin/LinkForm.tsx:36-44 | as written, on the first opening after the mount the edit dialog holds the mount's empty fields, so saving an edit untouched is refused without a remote call |
| CompanyForm.EditAfterEntryWritesCarriedValues | src/components/admin/CompanyForm.tsx:35-41 | as written, after any earlier entry, an untouched save of Edit on a company writes that entry's name and flag onto the company's id, with a null logo when no logo is pending |
| AppForm.EditAfterEntryWritesCarriedValues | src/components/admin/AppForm.tsx:35-41 | as written, with no .apk picked since the dashboard mounted, after an earlier entry (an edit of another app, say) an untouched save of Edit on an app writes that entry's company and name onto the app's id, keeping its APK URL |
| AppForm.AddThenEditAsWritten | src/components/admin/AppForm.tsx:32-93 | as written, after adding an app with APK f, an untouched save of Edit on another app uploads f again and writes the added app's company, name and the new upload's URL onto the edited app's id |
| LinkForm.EditAfterEntryWritesCarriedValues | src/components/admin/LinkForm.tsx:36-44 | as written, after any earlier valid entry, an untouched save of Edit on a link writes that entry's four fields onto the link's id |
| AdminDashboard.RefreshData | src/components/admin/AdminDashboard.tsx:79-84 | four distinct keys are invalidated, exactly the keys of every cached read (three admin lists and the public list) |
| AdminDashboard.TableFor | src/components/admin/AdminDashboard.tsx:88 | company maps to companies, link to website_links and app to apps; the table determines the kind, so the mapping is injective |
| AdminDashboard.DeletedTitle | src/components/admin/AdminDashboard.tsx:91 | the success titles are "Company deleted", "Link deleted" and "App deleted" |
| AdminDashboard.HandleDelete | src/components/admin/AdminDashboard.tsx:86-96 | one delete on the kind's table for the id; success toasts the title and refreshes every key; failure toasts the error and refreshes nothing |
| AdminDashboard.GetCompanyName | src/components/admin/AdminDashboard.tsx:102-104 | the name of the first company with that id; "Unknown" if there is none or its name is empty; never "" |
| AdminDashboard.StatusLabel | src/components/admin/AdminDashboard.tsx:185-186 | "Active" iff the company is active, else "Inactive" |
| AdminDashboard.AddLinkOrAppEnabled | src/components/admin/AdminDashboard.tsx:229 | the add-link button (and likewise the add-app button at line 297) is enabled iff there is at least one company |
| AdminPage.AdminGate | src/pages/Admin.tsx:6-40 | spinner iff loading; login iff not loading and no user; access denied (with the email) iff a non-admin user; dashboard iff not loading, a user, and admin |

## Findings

| source | as written | input that shows it | evidently intended | confidence | as-written member | corrected member |
|---|---|---|---|---|---|---|
| src/components/CompanyCard.tsx:116 | "Show more" prints `websiteLinks.length - 1 + adminLinks.length + apps.length` | a company whose only link is of type admin: the button reads "Show more (0)" but the section lists one entry | the number of entries in the section: website links beyond the first (never below zero), plus admin links, plus apps | high; not executed | CompanyCard.ShowMoreCountCounterexample | CompanyCard.CorrectedShowMoreCount |
| src/components/admin/CompanyForm.tsx:32 | the logo state is created once, when the dashboard mounts the form without a company, so the preview never holds the edited company's logo; line 77 then reads the empty preview as "logo removed" | Edit a company whose logo_url is https://x/a.png, change nothing about the logo, save: the update writes logo_url null | opening Edit shows the company's logo and saving keeps it | high; not executed | CompanyForm.EditClearsLogoAsWritten | CompanyForm.OpenCompanyDialog |
| src/components/admin/AppForm.tsx:32 | the picked APK lives in state that nothing resets after a save (lines 106-107 only notify and close) | pick app.apk, create app A, then Add app B without picking a file: app.apk is uploaded again for B | each Add asks for its own APK ("APK Required" when none is picked) | high; not executed | AppForm.PendingApkReusedAsWritten | AppForm.CorrectedCreateNeedsFreshApk |
| src/components/admin/CompanyForm.tsx:35-41 | the field values are never reset: the dialog holds the mount's empty name until the first entry, and the last entry's values after it | add company Acme, then open Edit on company Beta and save untouched: Beta's row gets the name Acme | the dialog opens pre-filled with the edited company | high; not executed | CompanyForm.EditAfterEntryWritesCarriedValues | CompanyForm.OpenCompanyDialog |
| src/components/admin/AppForm.tsx:35-41 | the field values are never reset: the dialog holds the mount's empty fields until the first entry, and the last entry's values after it | add app Foo with foo.apk, then open Edit on app Bar and save untouched: foo.apk is uploaded again and Bar's row gets Foo's company and name and the new upload's URL in place of Bar's own APK | the dialog opens pre-filled with the edited app | high; not executed | AppForm.AddThenEditAsWritten | AppForm.OpenAppDialog |
| src/components/admin/LinkForm.tsx:36-44 | the field values are never reset: the dialog holds the mount's empty fields until the first entry, and the last entry's values after it | add a link titled Docs, then open Edit on another link and save untouched: that link's row gets Docs's four fields (before any entry the same save is refused) | the dialog opens pre-filled with the edited link | high; not executed | LinkForm.EditAfterEntryWritesCarriedValues | LinkForm.UnchangedEditWritesBack |

The last five rows come from `AdminDashboard.tsx:357-376`: the three
dialogs are mounted once, while the editing state is still undefined, and
are never re-keyed or reset. So their `useState` initial values and
`useForm` default values are those of that first render, and afterwards
each opening starts from what the previous one left: the last values
entered (`OpenedValues`), the logo state (`ReplayLogo`) and the pending APK
(`ReplayApk`). On the first opening the edit dialogs are empty and an
untouched save is refused (`EditDialogNotPrefilledAsWritten` in each form);
a picked logo is uploaded again by the next save
(`CompanyForm.PendingLogoReusedAsWritten`). The submit functions take the
dialog state as a parameter, so they serve both the as-written mounted
state (`MountedDefaults`, `MountedLogo`, `MountedApk`) and the corrected
per-opening state (`OpenCompanyDialog`, `OpenAppDialog`, `LinkDefaults`).

`CompanyCard.RenderCard` keeps the count as written, because it models
what the page shows. `CompanyCard.CorrectedShowMoreCount` is the definition
a fix would use.

## Left out

- Network, storage and auth internals. The store's `select`/`insert`/`update`/`delete`, uploads and `getPublicUrl` are replies given as inputs. Their server-side filtering and ordering (`is_active = true`, by name, newest first) are not modelled.
- UseCompanies.OnlyActiveShown: assumes the store's `is_active` filter as a precondition instead of proving it.
- The admin dashboard's three list queries. They pass the store's rows through unchanged, or throw its error.
- react-query caching, refetching and loading flags. Only the set of invalidated keys is modelled.
- Loading spinners (`isLoading`), dialog open/close state, and all markup and styling beyond the decisions listed above.
- Toasts are reduced to title, description and the destructive flag.
- Keystroke-level editing of the form fields. What a dialog holds is modelled as a sequence of whole entries (`OpenedValues`), so only the last entry matters.
- Cascade deletion of a company's links and apps. Only the store enforces it; no application code does.
- Not-found handling on update or delete. The code performs no existence check.
- `useAuth` and `AdminLogin` are not part of this model. The auth state is an input to `AdminPage.AdminGate`.
- The public home and index pages and the header. They are static markup, or they branch on query flags only.
- `charCodeAt(0)` of an empty id (NaN in JavaScript). `CompanyCard.ColorIndex` requires a non-empty id.
- Text.Capitalize: upper-cases ASCII letters only. JavaScript's `toUpperCase` is full Unicode, but it is only ever applied to the fixed words "company", "link" and "app".
- Badge and count numbers are kept as numbers, not rendered as decimal text.
- Distinct not-found, validation and upload error kinds. The code has one error toast that carries the store's message, and the model follows the code.
