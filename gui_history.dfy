/** The downloads-history bookkeeping of the main window: the history file's
    `completed` and `incomplete` lists and its `settings`, the theme toggle,
    and the resume list's entries. Widgets, threads and the JSON encoding
    are not modelled; the history file is a value on a modelled disk. */
module GuiHistory {
  import opened Common

  /** One history entry as stored in the file: every key may be missing. */
  datatype Entry = Entry(kind: Option<string>, url: Option<string>, progress: Option<int>,
                         status: Option<string>, timestamp: Option<int>, outputPath: Option<string>)

  /** The history file: the two lists and the optional `settings` object. */
  datatype History = History(completed: seq<Entry>, incomplete: seq<Entry>, settings: Option<map<string, string>>)

  /** What the window shows of one running download. */
  datatype ActiveDownload = ActiveDownload(url: string, progress: int, status: string, outputPath: string)

  /** The data attached to one row of the resume list. */
  datatype ResumeItem = ResumeItem(url: string, outputPath: string, kind: string, progress: int)

  // ---------------------------------------------------------------------------
  // Substrings (Python's `in` on strings)

  predicate Contains(s: string, t: string)
    decreases |s|
  {
    (|t| <= |s| && s[..|t|] == t) || (s != [] && Contains(s[1..], t))
  }

  /** `t` occurs in `s` at offset `i`. */
  predicate OccursAt(s: string, t: string, i: int) {
    0 <= i <= |s| - |t| && s[i..i + |t|] == t
  }

  /** `t in s` holds exactly when `t` occurs at some offset of `s`. */
  lemma {:induction false} ContainsIff(s: string, t: string)
    ensures Contains(s, t) <==> exists i :: OccursAt(s, t, i)
    decreases |s|
  {
    if |t| <= |s| && s[..|t|] == t {
      assert OccursAt(s, t, 0);
    }
    if s == [] {
      if exists i :: OccursAt(s, t, i) {
        var i :| OccursAt(s, t, i);
        assert i == 0 && t == [];
      }
    } else {
      ContainsIff(s[1..], t);
      if Contains(s[1..], t) {
        var i :| OccursAt(s[1..], t, i);
        assert s[1..][i..i + |t|] == s[i + 1..i + 1 + |t|];
        assert OccursAt(s, t, i + 1);
      }
      if exists i :: OccursAt(s, t, i) {
        var i :| OccursAt(s, t, i);
        if i > 0 {
          assert s[1..][i - 1..i - 1 + |t|] == s[i..i + |t|];
          assert OccursAt(s[1..], t, i - 1);
        }
      }
    }
  }

  // ---------------------------------------------------------------------------
  // save_download_states (gui.py:137-170)

  const CompletedMarker := "completed successfully"

  /** A download counts as completed when its status text says so. */
  predicate Finished(d: ActiveDownload) {
    Contains(d.status, CompletedMarker)
  }

  /** The entry written for a running download of the given kind at time `now`. */
  function Info(d: ActiveDownload, kind: string, now: int): Entry {
    Entry(Some(kind), Some(d.url), Some(d.progress), Some(d.status), Some(now), Some(d.outputPath))
  }

  /** The entries, in order, of the downloads of `ds` that are finished
      (`done`) or not (`!done`). */
  function Filed(ds: seq<ActiveDownload>, kind: string, now: int, done: bool): seq<Entry> {
    if ds == [] then []
    else (if Finished(ds[0]) == done then [Info(ds[0], kind, now)] else []) + Filed(ds[1..], kind, now, done)
  }

  /** Every download lands in exactly one of the two lists. */
  lemma {:induction false} FiledCount(ds: seq<ActiveDownload>, kind: string, now: int)
    ensures |Filed(ds, kind, now, true)| + |Filed(ds, kind, now, false)| == |ds|
  {
    if ds != [] {
      FiledCount(ds[1..], kind, now);
    }
  }

  /** An entry filed as completed has a status saying so, and one filed as
      incomplete has a status that does not. */
  lemma {:induction false} FiledByStatus(ds: seq<ActiveDownload>, kind: string, now: int, done: bool)
    ensures forall e :: e in Filed(ds, kind, now, done) ==>
              e.status.Some? && Contains(e.status.value, CompletedMarker) == done
  {
    if ds != [] {
      FiledByStatus(ds[1..], kind, now, done);
    }
  }

  lemma {:induction false} FiledSnoc(ds: seq<ActiveDownload>, d: ActiveDownload, kind: string, now: int, done: bool)
    ensures Filed(ds + [d], kind, now, done)
            == Filed(ds, kind, now, done) + (if Finished(d) == done then [Info(d, kind, now)] else [])
  {
    if ds == [] {
      assert ds + [d] == [d];
    } else {
      assert (ds + [d])[1..] == ds[1..] + [d];
      FiledSnoc(ds[1..], d, kind, now, done);
    }
  }

  /** One `for download in ...` loop of `save_download_states`: each
      download's entry is appended to `completed` or to `incomplete`. */
  method FileDownloads(h: History, ds: seq<ActiveDownload>, kind: string, now: int) returns (r: History)
    ensures r.completed == h.completed + Filed(ds, kind, now, true)
    ensures r.incomplete == h.incomplete + Filed(ds, kind, now, false)
    ensures r.settings == h.settings
  {
    r := h;
    var i := 0;
    while i < |ds|
      invariant i <= |ds|
      invariant r.completed == h.completed + Filed(ds[..i], kind, now, true)
      invariant r.incomplete == h.incomplete + Filed(ds[..i], kind, now, false)
      invariant r.settings == h.settings
    {
      var info := Info(ds[i], kind, now);
      if Contains(ds[i].status, CompletedMarker) {
        r := r.(completed := r.completed + [info]);
      } else {
        r := r.(incomplete := r.incomplete + [info]);
      }
      FiledSnoc(ds[..i], ds[i], kind, now, true);
      FiledSnoc(ds[..i], ds[i], kind, now, false);
      assert ds[..i + 1] == ds[..i] + [ds[i]];
      i := i + 1;
    }
    assert ds[..i] == ds;
  }

  // ---------------------------------------------------------------------------
  // First match by url (gui.py:624-627, 758-765, 785-788)

  /** The index of the first entry whose url is `u`. */
  function FirstMatch(es: seq<Entry>, u: string): (r: Option<nat>)
    ensures r.Some? ==> r.value < |es| && es[r.value].url == Some(u)
    ensures r.Some? ==> forall j :: 0 <= j < r.value ==> es[j].url != Some(u)
    ensures r.None? <==> forall j :: 0 <= j < |es| ==> es[j].url != Some(u)
  {
    if es == [] then None
    else if es[0].url == Some(u) then Some(0)
    else match FirstMatch(es[1..], u)
      case None => None
      case Some(i) => Some(i + 1)
  }

  /** The entries with the first one whose url is `u` popped. */
  function RemoveFirst(es: seq<Entry>, u: string): seq<Entry> {
    match FirstMatch(es, u)
    case None => es
    case Some(i) => es[..i] + es[i + 1..]
  }

  /** Popping the first match removes exactly one entry when there is a
      match and none otherwise, and removes nothing but that entry. */
  lemma RemoveFirstRemovesOne(es: seq<Entry>, u: string)
    ensures |RemoveFirst(es, u)| == |es| - (if FirstMatch(es, u).Some? then 1 else 0)
    ensures FirstMatch(es, u).Some? ==>
              multiset(RemoveFirst(es, u)) + multiset{es[FirstMatch(es, u).value]} == multiset(es)
    ensures FirstMatch(es, u).None? ==> RemoveFirst(es, u) == es
  {
    if FirstMatch(es, u).Some? {
      var i := FirstMatch(es, u).value;
      assert es == es[..i] + [es[i]] + es[i + 1..];
      assert multiset(es) == multiset(es[..i]) + multiset{es[i]} + multiset(es[i + 1..]);
    }
  }

  /** The `enumerate` loop: scan for the first entry with url `u` and pop it. */
  method PopFirstMatch(es: seq<Entry>, u: string) returns (rest: seq<Entry>, popped: Option<Entry>)
    ensures rest == RemoveFirst(es, u)
    ensures popped == (match FirstMatch(es, u) case None => None case Some(i) => Some(es[i]))
  {
    var i := 0;
    while i < |es|
      invariant i <= |es|
      invariant forall j :: 0 <= j < i ==> es[j].url != Some(u)
    {
      if es[i].url == Some(u) {
        return es[..i] + es[i + 1..], Some(es[i]);
      }
      i := i + 1;
    }
    return es, None;
  }

  /** The entries with the first match of each url in turn popped. */
  function RemoveFirsts(es: seq<Entry>, urls: seq<string>): seq<Entry> {
    if urls == [] then es else RemoveFirsts(RemoveFirst(es, urls[0]), urls[1..])
  }

  /** Removing by a list of urls removes at most one entry per url and adds
      none. */
  lemma {:induction false} RemoveFirstsBound(es: seq<Entry>, urls: seq<string>)
    ensures |es| - |urls| <= |RemoveFirsts(es, urls)| <= |es|
    ensures multiset(RemoveFirsts(es, urls)) <= multiset(es)
  {
    if urls != [] {
      RemoveFirstRemovesOne(es, urls[0]);
      RemoveFirstsBound(RemoveFirst(es, urls[0]), urls[1..]);
    }
  }

  function UrlsOf(items: seq<ResumeItem>): seq<string> {
    if items == [] then [] else [items[0].url] + UrlsOf(items[1..])
  }

  /** The `for item in selectedItems()` loop of `clear_selected_resume`:
      the first match of each selected row's url is popped in turn. */
  method PopSelected(es: seq<Entry>, selected: seq<ResumeItem>) returns (rest: seq<Entry>)
    ensures rest == RemoveFirsts(es, UrlsOf(selected))
  {
    rest := es;
    var i := 0;
    while i < |selected|
      invariant i <= |selected|
      invariant RemoveFirsts(rest, UrlsOf(selected[i..])) == RemoveFirsts(es, UrlsOf(selected))
    {
      assert selected[i..][1..] == selected[i + 1..];
      var popped;
      rest, popped := PopFirstMatch(rest, selected[i].url);
      i := i + 1;
    }
  }

  // ---------------------------------------------------------------------------
  // Theme and settings (gui.py:176-205, 234-240)

  /** "dark" becomes "light"; anything else becomes "dark". */
  function Toggled(theme: string): (r: string)
    ensures r == "light" || r == "dark"
    ensures r == "light" <==> theme == "dark"
  {
    if theme == "dark" then "light" else "dark"
  }

  /** Toggling twice restores "light" and "dark", and sends any other theme
      to "light". */
  lemma ToggleTwice(theme: string)
    ensures theme == "light" || theme == "dark" ==> Toggled(Toggled(theme)) == theme
    ensures theme != "light" && theme != "dark" ==> Toggled(Toggled(theme)) == "light"
  {
  }

  /** The theme `load_user_settings` reads from a history file: the stored
      setting, or "light" when the file, the settings or the theme key is
      missing. */
  function ThemeIn(file: Option<History>): string {
    if file.Some? && file.value.settings.Some? && "theme" in file.value.settings.value
    then file.value.settings.value["theme"] else "light"
  }

  // ---------------------------------------------------------------------------
  // The resume list (gui.py:589-603)

  /** A resume-list row from a history entry: a missing url is "", a
      missing progress 0, a missing output path "" and a missing type
      "http". */
  function ItemOf(e: Entry): (it: ResumeItem)
    ensures e.url.None? ==> it.url == ""
    ensures e.progress.None? ==> it.progress == 0
    ensures e.kind.None? ==> it.kind == "http"
    ensures e.outputPath.None? ==> it.outputPath == ""
    ensures e.url.Some? ==> it.url == e.url.value
    ensures e.progress.Some? ==> it.progress == e.progress.value
    ensures e.kind.Some? ==> it.kind == e.kind.value
    ensures e.outputPath.Some? ==> it.outputPath == e.outputPath.value
  {
    ResumeItem(e.url.GetOr(""), e.outputPath.GetOr(""), e.kind.GetOr("http"), e.progress.GetOr(0))
  }

  class MainWindow {
    /** The `current_theme` attribute: None while it has not been set. */
    var currentTheme: Option<string>
    /** The history file: None while it does not exist. */
    var historyFile: Option<History>
    var activeHttpDownloads: seq<ActiveDownload>
    var activeYtDownloads: seq<ActiveDownload>
    /** The rows of the resume list, as their attached data. */
    var resumeList: seq<ResumeItem>

    /** The `__init__` that takes effect is the second one in the class
        (gui.py:798): it does not load the settings, so `current_theme` is
        not set; building the resume tab refreshes the resume list, which
        creates a missing history file and lists the incomplete entries. */
    constructor (file: Option<History>)
      ensures currentTheme == None
      ensures activeHttpDownloads == [] && activeYtDownloads == []
      ensures file.None? ==> historyFile == Some(History([], [], None)) && resumeList == []
      ensures file.Some? ==>
                && historyFile == file
                && |resumeList| == |file.value.incomplete|
                && forall k :: 0 <= k < |resumeList| ==> resumeList[k] == ItemOf(file.value.incomplete[k])
    {
      currentTheme := None;
      historyFile := file;
      activeHttpDownloads := [];
      activeYtDownloads := [];
      resumeList := [];
      new;
      RefreshResumeList();
    }

    /** `save_download_states`: starting from the stored history (or an
        empty one carrying the current theme), the HTTP downloads and then
        the YouTube downloads are filed as completed or incomplete, stamped
        `now`, and the history is written back; the entry count grows by
        exactly the number of active downloads. Without a history file and
        with `current_theme` unset, building the empty history raises and
        nothing is written. */
    method SaveDownloadStates(now: int)
      modifies this`historyFile
      ensures old(historyFile).None? && currentTheme.None? ==> historyFile == old(historyFile)
      ensures old(historyFile).Some? || currentTheme.Some? ==>
              var h0 := if old(historyFile).Some? then old(historyFile).value
                        else History([], [], Some(map["theme" := currentTheme.value]));
              historyFile == Some(History(
                h0.completed + Filed(activeHttpDownloads, "http", now, true) + Filed(activeYtDownloads, "youtube", now, true),
                h0.incomplete + Filed(activeHttpDownloads, "http", now, false) + Filed(activeYtDownloads, "youtube", now, false),
                h0.settings))
      ensures old(historyFile).Some? || currentTheme.Some? ==>
              var before := if old(historyFile).Some? then |old(historyFile).value.completed| + |old(historyFile).value.incomplete| else 0;
              |historyFile.value.completed| + |historyFile.value.incomplete|
              == before + |activeHttpDownloads| + |activeYtDownloads|
    {
      if historyFile.None? && currentTheme.None? {
        return;
      }
      var history := if historyFile.Some? then historyFile.value
                     else History([], [], Some(map["theme" := currentTheme.value]));
      history := FileDownloads(history, activeHttpDownloads, "http", now);
      history := FileDownloads(history, activeYtDownloads, "youtube", now);
      historyFile := Some(history);
      FiledCount(activeHttpDownloads, "http", now);
      FiledCount(activeYtDownloads, "youtube", now);
    }

    /** `update_download_history`: the first incomplete entry with the
        item's url is popped and, when `completed`, appended to the
        completed list; without a history file nothing happens (the source
        logs the error). */
    method UpdateDownloadHistory(item: ResumeItem, completed: bool)
      modifies this`historyFile
      ensures old(historyFile).None? ==> historyFile == old(historyFile)
      ensures old(historyFile).Some? ==>
                var h := old(historyFile).value;
                historyFile == Some(h.(
                  incomplete := RemoveFirst(h.incomplete, item.url),
                  completed := h.completed + (match FirstMatch(h.incomplete, item.url)
                                              case Some(i) => if completed then [h.incomplete[i]] else []
                                              case None => [])))
    {
      if historyFile.None? {
        return;
      }
      var history := historyFile.value;
      var rest, popped := PopFirstMatch(history.incomplete, item.url);
      var moved := if popped.Some? && completed then [popped.value] else [];
      history := history.(completed := history.completed + moved, incomplete := rest);
      historyFile := Some(history);
    }

    /** `clear_selected_resume`: for each selected row in turn the first
        incomplete entry with its url is popped; the completed list and the
        settings stay as they were. Nothing happens without a selection or
        without a history file. */
    method ClearSelectedResume(selected: seq<ResumeItem>)
      modifies this`historyFile
      ensures selected == [] || old(historyFile).None? ==> historyFile == old(historyFile)
      ensures selected != [] && old(historyFile).Some? ==>
                var h := old(historyFile).value;
                historyFile == Some(h.(incomplete := RemoveFirsts(h.incomplete, UrlsOf(selected))))
    {
      if selected == [] || historyFile.None? {
        return;
      }
      var history := historyFile.value;
      var incomplete := PopSelected(history.incomplete, selected);
      historyFile := Some(history.(incomplete := incomplete));
    }

    /** The history part of `stop_resume_download`: the first incomplete
        entry with the row's url is popped; nothing else changes. */
    method StopResumeDownload(item: ResumeItem)
      modifies this`historyFile
      ensures old(historyFile).None? ==> historyFile == old(historyFile)
      ensures old(historyFile).Some? ==>
                historyFile == Some(old(historyFile).value.(incomplete := RemoveFirst(old(historyFile).value.incomplete, item.url)))
    {
      if historyFile.None? {
        return;
      }
      var history := historyFile.value;
      var rest, _ := PopFirstMatch(history.incomplete, item.url);
      historyFile := Some(history.(incomplete := rest));
    }

    /** `load_user_settings`. */
    method LoadUserSettings()
      modifies this`currentTheme
      ensures currentTheme == Some(ThemeIn(historyFile))
    {
      if historyFile.None? {
        currentTheme := Some("light");
        return;
      }
      var settings := historyFile.value.settings.GetOr(map[]);
      currentTheme := Some(if "theme" in settings then settings["theme"] else "light");
    }

    /** `save_user_settings`: the stored history (or an empty one) gets a
        `settings` object if it had none, with `theme` set to the current
        theme; the two lists and the other settings stay as they were. While
        `current_theme` is not set, reading it raises and nothing is
        written. */
    method SaveUserSettings()
      modifies this`historyFile
      ensures currentTheme.None? ==> historyFile == old(historyFile)
      ensures currentTheme.Some? ==> historyFile.Some? && historyFile.value.settings.Some?
      ensures currentTheme.Some? && old(historyFile).Some? ==>
                && historyFile.value.completed == old(historyFile).value.completed
                && historyFile.value.incomplete == old(historyFile).value.incomplete
      ensures currentTheme.Some? && old(historyFile).None? ==>
                historyFile.value.completed == [] && historyFile.value.incomplete == []
      ensures currentTheme.Some? ==>
                var before := if old(historyFile).Some? then old(historyFile).value.settings.GetOr(map[]) else map[];
                historyFile.value.settings.value == before["theme" := currentTheme.value]
      ensures currentTheme.Some? ==> ThemeIn(historyFile) == currentTheme.value
    {
      if currentTheme.None? {
        return;
      }
      var history := if historyFile.Some? then historyFile.value else History([], [], Some(map[]));
      if history.settings.None? {
        history := history.(settings := Some(map[]));
      }
      history := history.(settings := Some(history.settings.value["theme" := currentTheme.value]));
      historyFile := Some(history);
    }

    /** `toggle_theme`: flip the theme (an unset one reads as `light`)
        and save it in the settings. */
    method ToggleTheme()
      modifies this`currentTheme, this`historyFile
      ensures currentTheme == Some(Toggled(old(currentTheme).GetOr("light")))
      ensures ThemeIn(historyFile) == currentTheme.value
      ensures historyFile.Some? && historyFile.value.settings.Some?
      ensures old(historyFile).Some? ==>
                && historyFile.value.completed == old(historyFile).value.completed
                && historyFile.value.incomplete == old(historyFile).value.incomplete
      ensures old(historyFile).None? ==> historyFile.value.completed == [] && historyFile.value.incomplete == []
      ensures var before := if old(historyFile).Some? then old(historyFile).value.settings.GetOr(map[]) else map[];
              historyFile.value.settings.value == before["theme" := currentTheme.value]
    {
      var theme := currentTheme.GetOr("light");
      currentTheme := Some(if theme == "dark" then "light" else "dark");
      SaveUserSettings();
    }

    /** The history part of `refresh_resume_list`: without a history file an
        empty one (with no settings) is created and the list stays empty;
        otherwise one row per incomplete entry, with defaults for missing
        keys. */
    method RefreshResumeList()
      modifies this`historyFile, this`resumeList
      ensures old(historyFile).None? ==> historyFile == Some(History([], [], None)) && resumeList == []
      ensures old(historyFile).Some? ==>
                && historyFile == old(historyFile)
                && |resumeList| == |historyFile.value.incomplete|
                && forall k :: 0 <= k < |resumeList| ==> resumeList[k] == ItemOf(historyFile.value.incomplete[k])
    {
      resumeList := [];
      if historyFile.None? {
        historyFile := Some(History([], [], None));
        return;
      }
      var entries := historyFile.value.incomplete;
      var i := 0;
      while i < |entries|
        invariant i <= |entries|
        invariant |resumeList| == i && historyFile == old(historyFile)
        invariant forall k :: 0 <= k < i ==> resumeList[k] == ItemOf(entries[k])
      {
        var e := entries[i];
        var url := if e.url.Some? then e.url.value else "";
        var progress := if e.progress.Some? then e.progress.value else 0;
        var outputPath := if e.outputPath.Some? then e.outputPath.value else "";
        var kind := if e.kind.Some? then e.kind.value else "http";
        resumeList := resumeList + [ResumeItem(url, outputPath, kind, progress)];
        i := i + 1;
      }
    }
  }
}
