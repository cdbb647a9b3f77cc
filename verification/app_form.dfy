/** The add/edit app dialog: validation, the APK picker and submission. */
module AppForm {
  import opened Wrappers
  import opened Text
  import opened Database
  import opened Backend
  import opened Seqs

  datatype AppFormData = AppFormData(company_id: string, app_name: string)

  /** `appSchema`: a selected company and an app name of 1 to 100 characters. */
  predicate ValidAppData(d: AppFormData) {
    Utf16Length(d.company_id) >= 1 && LengthBetween(d.app_name, 1, 100)
  }

  /** The form's default values: the edited app's, or empty fields. */
  function AppDefaults(app: Option<App>): (d: AppFormData)
    ensures app.None? ==> d == AppFormData("", "")
    ensures app.Some? ==> d == AppFormData(app.value.company_id, app.value.app_name)
  {
    AppFormData(if app.Some? && app.value.company_id != "" then app.value.company_id else "",
                if app.Some? && app.value.app_name != "" then app.value.app_name else "")
  }

  /** `handleApkChange`: the pending APK file after a pick, and the toast it
      shows. A file whose name does not end in ".apk" is refused and the
      pending file stays as it was; no pick changes nothing. */
  function HandleApkChange(pending: Option<File>, picked: Option<File>): (r: (Option<File>, seq<Toast>))
    ensures picked.None? ==> r == (pending, [])
    ensures picked.Some? && !EndsWith(picked.value.name, ".apk") ==>
              r == (pending, [Toast("Invalid file", Some("Please select an APK file"), true)])
    ensures picked.Some? && EndsWith(picked.value.name, ".apk") ==> r == (picked, [])
    // only APK files ever become pending
    ensures (pending.Some? ==> EndsWith(pending.value.name, ".apk")) ==>
              (r.0.Some? ==> EndsWith(r.0.value.name, ".apk"))
  {
    if picked.None? then (pending, [])
    else if !EndsWith(picked.value.name, ".apk") then
      (pending, [Toast("Invalid file", Some("Please select an APK file"), true)])
    else (picked, [])
  }

  /** The object key of an uploaded APK: `<uuid>.apk`, whatever the file was called. */
  function ApkKey(uuid: string): (key: string)
    ensures EndsWith(key, ".apk") && |key| == |uuid| + 4 && key[..|uuid|] == uuid
  {
    uuid + ".apk"
  }

  const ApkRequired := Toast("APK Required", Some("Please select an APK file to upload"), true)

  /** `onSubmit` for validated data. */
  function SubmitApp(app: Option<App>, data: AppFormData, apk: Option<File>, uuid: string,
                     upload: Reply, publicUrl: (Bucket, string) -> string, db: Reply): (r: Submission)
    // a new app needs an APK: without one nothing is called
    ensures app.None? && apk.None? ==> r == Submission([], [ApkRequired], false)
    // a failed upload stops everything
    ensures apk.Some? && upload.Some? ==>
              r == Submission([Upload(ApkFiles, ApkKey(uuid), apk.value)], [ErrorToast(upload.value)], false)
    // the upload, if any, precedes the single row write
    ensures r.Wrote() ==>
              r.calls[|r.calls| - 1].WritesRow()
              && (apk.Some? ==> r.calls[..|r.calls| - 1] == [Upload(ApkFiles, ApkKey(uuid), apk.value),
                                                             GetPublicUrl(ApkFiles, ApkKey(uuid))])
              && (apk.None? ==> |r.calls| == 1)
    ensures r.Wrote() <==> (app.Some? || apk.Some?) && (apk.None? || upload.None?)
    // update of the edited app iff editing
    ensures r.Wrote() ==> var w := r.calls[|r.calls| - 1];
              (w.Update? <==> app.Some?) && w.table == Apps
              && (w.Update? ==> w.id == app.value.id)
              && w.row.AppRow? && w.row == AppRow(data.company_id, data.app_name, w.row.apk_file_url)
    // the APK URL: the new upload's public URL, else the current one
    ensures r.Wrote() && apk.Some? ==>
              r.calls[|r.calls| - 1].row.apk_file_url == publicUrl(ApkFiles, r.calls[0].key)
    ensures r.Wrote() && apk.None? ==>
              r.calls[|r.calls| - 1].row.apk_file_url == app.value.apk_file_url
    ensures r.succeeded <==> r.Wrote() && db.None?
    ensures r.Wrote() && db.Some? ==> r.toasts == [ErrorToast(db.value)]
    ensures r.succeeded ==> r.toasts == [Toast(if app.Some? then "App updated successfully"
                                               else "App created successfully", None, false)]
  {
    if app.None? && apk.None? then Submission([], [ApkRequired], false)
    else
      var current := if app.Some? && app.value.apk_file_url != "" then app.value.apk_file_url else "";
      if apk.Some? && upload.Some? then
        Submission([Upload(ApkFiles, ApkKey(uuid), apk.value)], [ErrorToast(upload.value)], false)
      else
        var before :=
          if apk.Some? then [Upload(ApkFiles, ApkKey(uuid), apk.value), GetPublicUrl(ApkFiles, ApkKey(uuid))]
          else [];
        var apkUrl := if apk.Some? then publicUrl(ApkFiles, ApkKey(uuid)) else current;
        var row := AppRow(data.company_id, data.app_name, apkUrl);
        var r :=
          if app.Some? then Finish(before, Update(Apps, app.value.id, row), db, "App updated successfully")
          else Finish(before, Insert(Apps, row), db, "App created successfully");
        assert r.calls[|r.calls| - 1].WritesRow();
        r
  }

  /** `form.handleSubmit(onSubmit)`: invalid data never reaches the store. */
  function HandleSubmitApp(app: Option<App>, data: AppFormData, apk: Option<File>, uuid: string,
                           upload: Reply, publicUrl: (Bucket, string) -> string, db: Reply): (r: Submission)
    ensures !ValidAppData(data) ==> r.calls == [] && !r.succeeded
    ensures ValidAppData(data) ==> r == SubmitApp(app, data, apk, uuid, upload, publicUrl, db)
  {
    if ValidAppData(data) then SubmitApp(app, data, apk, uuid, upload, publicUrl, db)
    else Rejected
  }

  /** A created app always points at the APK uploaded in the same
      submission, so its URL is never the empty placeholder. */
  lemma CreatedAppHasUploadedApk(data: AppFormData, apk: Option<File>, uuid: string,
                                 upload: Reply, publicUrl: (Bucket, string) -> string, db: Reply)
    requires publicUrl(ApkFiles, ApkKey(uuid)) != ""
    ensures var r := HandleSubmitApp(None, data, apk, uuid, upload, publicUrl, db);
      r.Wrote() ==>
        && r.calls[0] == Upload(ApkFiles, ApkKey(uuid), apk.value)
        && r.calls[|r.calls| - 1] == Insert(Apps, AppRow(data.company_id, data.app_name, publicUrl(ApkFiles, ApkKey(uuid))))
        && r.calls[|r.calls| - 1].row.apk_file_url != ""
  {
  }

  // The dialog's lifetime. The dashboard mounts this form once, while no
  // app is being edited, and never re-keys it; nothing resets the picked
  // APK or the field values afterwards, so each opening sees them as the
  // previous one left them (the mount's defaults before any entry).

  /** The default values the dashboard's single mount computes. */
  const MountedDefaults: AppFormData := AppDefaults(None)

  /** The pending APK the dashboard's single mount starts with. */
  const MountedApk: Option<File> := None

  /** The pending APK after a run of file-input changes. */
  function ReplayApk(pending: Option<File>, picks: seq<Option<File>>): (r: Option<File>)
    ensures r.Some? ==> r == pending || r in picks
    // the last APK picked wins; without one the pending file stays
    ensures forall k :: 0 <= k < |picks| && IsApk(picks[k]) && NoApkPicked(picks[k + 1..]) ==> r == picks[k]
    ensures NoApkPicked(picks) ==> r == pending
    decreases |picks|
  {
    if |picks| == 0 then pending
    else
      var rest := picks[1..];
      assert forall k :: 0 < k < |picks| ==> picks[k] == rest[k - 1] && picks[k + 1..] == rest[k..];
      assert NoApkPicked(picks) ==> NoApkPicked(rest) by {
        if NoApkPicked(picks) {
          forall i | 0 <= i < |rest| ensures !IsApk(rest[i]) {
            assert rest[i] == picks[i + 1];
          }
        }
      }
      ReplayApk(HandleApkChange(pending, picks[0]).0, rest)
  }

  /** A file-input change that picks an APK. */
  predicate IsApk(pick: Option<File>) {
    pick.Some? && EndsWith(pick.value.name, ".apk")
  }

  /** None of the changes picks an APK file. */
  predicate NoApkPicked(picks: seq<Option<File>>) {
    forall i :: 0 <= i < |picks| ==> !IsApk(picks[i])
  }

  /** Changes that pick no APK leave the pending one where it was. */
  lemma {:induction false} NonApkPicksKeepPending(pending: Option<File>, picks: seq<Option<File>>)
    requires NoApkPicked(picks)
    ensures ReplayApk(pending, picks) == pending
    decreases |picks|
  {
    if |picks| > 0 {
      assert NoApkPicked(picks[1..]) by {
        forall i | 0 <= i < |picks[1..]|
          ensures picks[1..][i].Some? ==> !EndsWith(picks[1..][i].value.name, ".apk")
        {
          assert picks[1..][i] == picks[i + 1];
        }
      }
      NonApkPicksKeepPending(pending, picks[1..]);
    }
  }

  /** As written, an APK picked in one opening stays pending after its app
      is saved: a later Add that picks nothing (or only non-APK files)
      uploads the same file again instead of asking for an APK. */
  lemma PendingApkReusedAsWritten(f: File, later: seq<Option<File>>, data: AppFormData, uuid: string,
                                  upload: Reply, publicUrl: (Bucket, string) -> string, db: Reply)
    requires EndsWith(f.name, ".apk") && NoApkPicked(later) && ValidAppData(data)
    ensures var apk := ReplayApk(MountedApk, [Some(f)] + later);
      apk == Some(f)
      && HandleSubmitApp(None, data, apk, uuid, upload, publicUrl, db).calls[0] == Upload(ApkFiles, ApkKey(uuid), f)
      && ApkRequired !in HandleSubmitApp(None, data, apk, uuid, upload, publicUrl, db).toasts
  {
    assert ([Some(f)] + later)[1..] == later;
    NonApkPicksKeepPending(Some(f), later);
  }

  /** As written, the dialog opens with the values last entered in it: the
      form keeps them across closing and saving, and holds the mount's
      defaults only until the first entry. */
  function OpenedValues(entered: seq<AppFormData>): (d: AppFormData)
    ensures |entered| == 0 ==> d == MountedDefaults
    ensures |entered| > 0 ==> d == entered[|entered| - 1]
  {
    Latest(entered, MountedDefaults)
  }

  /** As written, on the first opening after the mount the edit dialog is
      not pre-filled: its values are the mount's empty fields, so saving it
      untouched is refused by validation. */
  lemma EditDialogNotPrefilledAsWritten(a: App, apk: Option<File>, uuid: string, upload: Reply,
                                        publicUrl: (Bucket, string) -> string, db: Reply)
    ensures OpenedValues([]) == AppFormData("", "")
    ensures HandleSubmitApp(Some(a), OpenedValues([]), apk, uuid, upload, publicUrl, db) == Rejected
  {
  }

  /** As written, after an earlier entry (an edit of another app, say) and
      with no .apk picked since the dashboard mounted, opening Edit on `a`
      and saving untouched writes that entry's company and name onto `a`'s
      row, keeping `a`'s APK URL. */
  lemma EditAfterEntryWritesCarriedValues(a: App, entered: seq<AppFormData>, picks: seq<Option<File>>,
                                          uuid: string, upload: Reply, publicUrl: (Bucket, string) -> string)
    requires |entered| > 0 && ValidAppData(entered[|entered| - 1]) && NoApkPicked(picks)
    ensures var prev := entered[|entered| - 1];
      HandleSubmitApp(Some(a), OpenedValues(entered), ReplayApk(MountedApk, picks), uuid, upload, publicUrl, None).calls
      == [Update(Apps, a.id, AppRow(prev.company_id, prev.app_name, a.apk_file_url))]
  {
    NonApkPicksKeepPending(MountedApk, picks);
  }

  /** As written, add an app with APK `f`, then open Edit on `a` and save
      untouched: `f` is uploaded again, and `a`'s row gets the added app's
      company and name and the new upload's URL in place of its own APK. */
  lemma AddThenEditAsWritten(a: App, added: AppFormData, f: File, later: seq<Option<File>>, uuid: string,
                             publicUrl: (Bucket, string) -> string)
    requires ValidAppData(added) && IsApk(Some(f)) && NoApkPicked(later)
    ensures var apk := ReplayApk(MountedApk, [Some(f)] + later);
      HandleSubmitApp(Some(a), OpenedValues([added]), apk, uuid, None, publicUrl, None).calls
      == [Upload(ApkFiles, ApkKey(uuid), f), GetPublicUrl(ApkFiles, ApkKey(uuid)),
          Update(Apps, a.id, AppRow(added.company_id, added.app_name, publicUrl(ApkFiles, ApkKey(uuid))))]
  {
    assert ([Some(f)] + later)[1..] == later;
  }

  /** The dialog state as it is evidently meant to be at each opening. */
  datatype AppDialog = AppDialog(values: AppFormData, apk: Option<File>)

  /** Corrected: the state re-initialised whenever the dialog opens: the
      edited app's values and no pending APK. */
  function OpenAppDialog(app: Option<App>): (d: AppDialog)
    ensures d.apk.None?
    ensures app.Some? ==> d.values == AppFormData(app.value.company_id, app.value.app_name)
    ensures app.None? ==> d.values == AppFormData("", "")
  {
    AppDialog(AppDefaults(app), None)
  }

  /** With the corrected opening, a new app is refused until an APK is
      picked in that same opening, whatever was picked before. */
  lemma CorrectedCreateNeedsFreshApk(data: AppFormData, picks: seq<Option<File>>, uuid: string,
                                     upload: Reply, publicUrl: (Bucket, string) -> string, db: Reply)
    requires ValidAppData(data) && NoApkPicked(picks)
    ensures var apk := ReplayApk(OpenAppDialog(None).apk, picks);
      HandleSubmitApp(None, data, apk, uuid, upload, publicUrl, db) == Submission([], [ApkRequired], false)
  {
    NonApkPicksKeepPending(None, picks);
  }

  /** With the corrected opening, saving an edited app without changes
      writes its current fields and APK URL back. */
  lemma UnchangedEditWritesBack(a: App, uuid: string, upload: Reply, publicUrl: (Bucket, string) -> string)
    requires ValidAppData(AppFormData(a.company_id, a.app_name))
    ensures var d := OpenAppDialog(Some(a));
      var r := HandleSubmitApp(Some(a), d.values, d.apk, uuid, upload, publicUrl, None);
      r.calls == [Update(Apps, a.id, AppRow(a.company_id, a.app_name, a.apk_file_url))] && r.succeeded
  {
  }
}
