/**
 * The notes window's tab list and its persistence.
 *
 * Without its widgets the window is a list of tabs, each the path of a note
 * file and the title shown on the tab, plus the index of the active tab.
 * The file system is an input: the set of paths that exist and the listing
 * of the notes folder; the config file is given already parsed. A note's
 * text lives in a store from paths to contents.
 */
module Notes {
  import opened Wrappers
  import opened Paths

  datatype Tab = Tab(path: string, title: string)

  /** The parsed config.json: the saved tab paths and the index of the active tab. */
  datatype Config = Config(files: seq<string>, lastActive: int)

  /** What QInputDialog.getText returns: the text typed and whether OK was pressed. */
  datatype DialogResult = DialogResult(text: string, ok: bool)

  const NotesFolder: string := "notes"
  const ConfigFileName: string := "config.json"
  const DefaultNoteName: string := "notes"
  const NoteSuffix: string := ".txt"

  function Titles(tabs: seq<Tab>): (r: seq<string>)
    ensures |r| == |tabs| && forall i :: 0 <= i < |tabs| ==> r[i] == tabs[i].title
  {
    seq(|tabs|, i requires 0 <= i < |tabs| => tabs[i].title)
  }

  function TabPaths(tabs: seq<Tab>): (r: seq<string>)
    ensures |r| == |tabs| && forall i :: 0 <= i < |tabs| ==> r[i] == tabs[i].path
  {
    seq(|tabs|, i requires 0 <= i < |tabs| => tabs[i].path)
  }

  /** xs can be obtained from ys by deleting elements: same elements, same relative order. */
  ghost predicate IsSubsequence<T>(xs: seq<T>, ys: seq<T>)
    decreases |ys|
  {
    if xs == [] then true
    else if ys == [] then false
    else (xs[|xs| - 1] == ys[|ys| - 1] && IsSubsequence(xs[..|xs| - 1], ys[..|ys| - 1]))
         || IsSubsequence(xs, ys[..|ys| - 1])
  }

  function Listed(t: Option<Tab>): (r: seq<Tab>)
    ensures |r| <= 1 && (r == [] <==> t.None?)
  {
    if t.Some? then [t.value] else []
  }

  // ---------------------------------------------------------------------
  // save_tabs
  // ---------------------------------------------------------------------

  /** The config save_tabs writes: "<folder>/<title>" for each tab in tab order, and the active index. */
  function SavedConfig(folder: string, tabs: seq<Tab>, current: int): (r: Config)
    ensures |r.files| == |tabs| && r.lastActive == current
    ensures forall i :: 0 <= i < |tabs| ==>
              && |r.files[i]| == |folder| + 1 + |tabs[i].title|
              && r.files[i][..|folder| + 1] == folder + "/" && EndsWith(r.files[i], tabs[i].title)
  {
    Config(seq(|tabs|, i requires 0 <= i < |tabs| => folder + "/" + tabs[i].title), current)
  }

  // ---------------------------------------------------------------------
  // load_tabs, from a config
  // ---------------------------------------------------------------------

  /** The tabs opened from a config: one per listed path that exists, titled by its basename. */
  function ConfigTabs(files: seq<string>, existing: set<string>): (r: seq<Tab>)
    ensures |r| <= |files|
    ensures forall i :: 0 <= i < |r| ==>
              r[i].path in existing && r[i].path in files && r[i].title == Basename(r[i].path)
    decreases |files|
  {
    if files == [] then []
    else
      var p := files[|files| - 1];
      ConfigTabs(files[..|files| - 1], existing) + (if p in existing then [Tab(p, Basename(p))] else [])
  }

  /** A tab is opened from the config exactly when its path is listed and exists; its title is the basename. */
  lemma {:induction false} ConfigTabsExactly(files: seq<string>, existing: set<string>, t: Tab)
    ensures t in ConfigTabs(files, existing) <==> t.path in files && t.path in existing && t.title == Basename(t.path)
    decreases |files|
  {
    if files != [] {
      var init := files[..|files| - 1];
      ConfigTabsExactly(init, existing, t);
      assert files == init + [files[|files| - 1]];
    }
  }

  /** The opened tabs keep the config's order. */
  lemma {:induction false} ConfigTabsInOrder(files: seq<string>, existing: set<string>)
    ensures IsSubsequence(TabPaths(ConfigTabs(files, existing)), files)
    decreases |files|
  {
    if files != [] {
      var init := files[..|files| - 1];
      var p := files[|files| - 1];
      var before := ConfigTabs(init, existing);
      ConfigTabsInOrder(init, existing);
      var ps := TabPaths(ConfigTabs(files, existing));
      if p in existing {
        assert ps[..|ps| - 1] == TabPaths(before);
      } else {
        assert ps == TabPaths(before);
        SubsequenceOfLonger(ps, init, p);
      }
    }
  }

  lemma SubsequenceOfLonger<T>(xs: seq<T>, ys: seq<T>, y: T)
    requires IsSubsequence(xs, ys)
    ensures IsSubsequence(xs, ys + [y])
  {
    assert (ys + [y])[..|ys|] == ys;
  }

  /**
   * One tab is opened for each occurrence of an existing path in the config,
   * so a path listed twice opens two tabs, and a missing path opens none.
   */
  lemma {:induction false} ConfigTabsCount(files: seq<string>, existing: set<string>, p: string)
    ensures multiset(TabPaths(ConfigTabs(files, existing)))[p] == if p in existing then multiset(files)[p] else 0
    decreases |files|
  {
    if files != [] {
      var init := files[..|files| - 1];
      var x := files[|files| - 1];
      ConfigTabsCount(init, existing, p);
      assert files == init + [x];
      assert multiset(files)[p] == multiset(init)[p] + (if x == p then 1 else 0);
      var before := ConfigTabs(init, existing);
      if x in existing {
        assert ConfigTabs(files, existing) == before + [Tab(x, Basename(x))];
        TabPathsAppend(before, Tab(x, Basename(x)));
      } else {
        assert ConfigTabs(files, existing) == before;
      }
    }
  }

  lemma TabPathsAppend(tabs: seq<Tab>, t: Tab)
    ensures multiset(TabPaths(tabs + [t])) == multiset(TabPaths(tabs)) + multiset{t.path}
  {
    assert TabPaths(tabs + [t]) == TabPaths(tabs) + [t.path];
  }

  /** When every listed path exists, one tab per path is opened, in config order. */
  lemma {:induction false} ConfigTabsAllExist(files: seq<string>, existing: set<string>)
    requires forall p :: p in files ==> p in existing
    ensures var r := ConfigTabs(files, existing);
      |r| == |files| && forall i :: 0 <= i < |files| ==> r[i] == Tab(files[i], Basename(files[i]))
    decreases |files|
  {
    if files != [] {
      var init := files[..|files| - 1];
      var p := files[|files| - 1];
      assert forall q :: q in init ==> q in files;
      ConfigTabsAllExist(init, existing);
      var before := ConfigTabs(init, existing);
      assert p in existing;
      var r := ConfigTabs(files, existing);
      assert r == before + [Tab(p, Basename(p))];
      forall i | 0 <= i < |files| ensures r[i] == Tab(files[i], Basename(files[i])) {
        if i < |files| - 1 {
          assert r[i] == before[i] && files[i] == init[i];
        }
      }
    }
  }

  /**
   * Saving and then loading the config gives back the same titles in the
   * same order, and the same active index, provided every title is a plain
   * file name and every saved path exists.
   */
  lemma SaveLoadRoundTrip(folder: string, tabs: seq<Tab>, current: int, existing: set<string>)
    requires forall i :: 0 <= i < |tabs| ==> '/' !in tabs[i].title
    requires forall i :: 0 <= i < |tabs| ==> folder + "/" + tabs[i].title in existing
    ensures var c := SavedConfig(folder, tabs, current);
      && Titles(ConfigTabs(c.files, existing)) == Titles(tabs)
      && TabPaths(ConfigTabs(c.files, existing)) == c.files
      && c.lastActive == current
  {
    var files := SavedConfig(folder, tabs, current).files;
    ReloadSavedPaths(folder, tabs, files, existing);
  }

  /** Loading paths of the form "<folder>/<title>" that all exist gives back those titles and paths. */
  lemma ReloadSavedPaths(folder: string, tabs: seq<Tab>, files: seq<string>, existing: set<string>)
    requires |files| == |tabs|
    requires forall i :: 0 <= i < |tabs| ==> files[i] == folder + "/" + tabs[i].title
    requires forall i :: 0 <= i < |tabs| ==> '/' !in tabs[i].title
    requires forall i :: 0 <= i < |tabs| ==> files[i] in existing
    ensures Titles(ConfigTabs(files, existing)) == Titles(tabs)
    ensures TabPaths(ConfigTabs(files, existing)) == files
  {
    ConfigTabsAllExist(files, existing);
    var r := ConfigTabs(files, existing);
    forall i | 0 <= i < |tabs| ensures r[i].title == tabs[i].title {
      BasenameAfterSeparator(folder, tabs[i].title);
    }
  }

  /**
   * The round trip needs plain titles: a note named "a/b" in the dialog is
   * saved as "notes/a/b.txt" and comes back titled "b.txt".
   */
  lemma RoundTripLosesDirectoryInTitle()
    ensures var tabs := [Tab("notes/a/b.txt", "a/b.txt")];
      var c := SavedConfig("notes", tabs, 0);
      c.files == ["notes/a/b.txt"]
      && ConfigTabs(c.files, {"notes/a/b.txt"}) == [Tab("notes/a/b.txt", "b.txt")]
  {
    var tabs := [Tab("notes/a/b.txt", "a/b.txt")];
    var c := SavedConfig("notes", tabs, 0);
    assert "notes" + "/" + "a/b.txt" == "notes/a/b.txt";
    assert c.files[0] == "notes/a/b.txt";
    assert c.files == ["notes/a/b.txt"];
    BasenameAfterSeparator("notes/a", "b.txt");
    assert "notes/a" + "/" + "b.txt" == "notes/a/b.txt";
    assert c.files[..0] == [];
  }

  // ---------------------------------------------------------------------
  // load_tabs, from the folder listing
  // ---------------------------------------------------------------------

  /** The tabs opened from the notes folder: one per ".txt" entry, in listing order. */
  function ListingTabs(folder: string, listing: seq<string>): (r: seq<Tab>)
    ensures |r| <= |listing|
    ensures forall i :: 0 <= i < |r| ==> EndsWith(r[i].title, NoteSuffix) && r[i].path == Join(folder, r[i].title)
    decreases |listing|
  {
    if listing == [] then []
    else
      var n := listing[|listing| - 1];
      ListingTabs(folder, listing[..|listing| - 1])
        + (if EndsWith(n, NoteSuffix) then [Tab(Join(folder, n), n)] else [])
  }

  lemma ListingTabsExtend(folder: string, listing: seq<string>, i: int)
    requires 0 <= i < |listing|
    ensures ListingTabs(folder, listing[..i + 1])
            == ListingTabs(folder, listing[..i])
               + (if EndsWith(listing[i], NoteSuffix) then [Tab(Join(folder, listing[i]), listing[i])] else [])
  {
    assert listing[..i + 1][..i] == listing[..i];
  }

  /** A tab is opened from the listing exactly for a listed ".txt" name, at the joined path. */
  lemma {:induction false} ListingTabsExactly(folder: string, listing: seq<string>, t: Tab)
    ensures t in ListingTabs(folder, listing)
            <==> t.title in listing && EndsWith(t.title, NoteSuffix) && t.path == Join(folder, t.title)
    decreases |listing|
  {
    if listing != [] {
      var init := listing[..|listing| - 1];
      ListingTabsExactly(folder, init, t);
      assert listing == init + [listing[|listing| - 1]];
    }
  }

  /** One tab is opened for each occurrence of a ".txt" name in the listing, and none for any other name. */
  lemma {:induction false} ListingTabsCount(folder: string, listing: seq<string>, n: string)
    ensures multiset(Titles(ListingTabs(folder, listing)))[n] == if EndsWith(n, NoteSuffix) then multiset(listing)[n] else 0
    decreases |listing|
  {
    if listing != [] {
      var init := listing[..|listing| - 1];
      var x := listing[|listing| - 1];
      ListingTabsCount(folder, init, n);
      assert listing == init + [x];
      assert multiset(listing)[n] == multiset(init)[n] + (if x == n then 1 else 0);
      var before := ListingTabs(folder, init);
      if EndsWith(x, NoteSuffix) {
        assert ListingTabs(folder, listing) == before + [Tab(Join(folder, x), x)];
        TitlesAppend(before, Tab(Join(folder, x), x));
      } else {
        assert ListingTabs(folder, listing) == before;
      }
    }
  }

  lemma TitlesAppend(tabs: seq<Tab>, t: Tab)
    ensures multiset(Titles(tabs + [t])) == multiset(Titles(tabs)) + multiset{t.title}
  {
    assert Titles(tabs + [t]) == Titles(tabs) + [t.title];
  }

  /** The opened tabs keep the listing's order. */
  lemma {:induction false} ListingTabsInOrder(folder: string, listing: seq<string>)
    ensures IsSubsequence(Titles(ListingTabs(folder, listing)), listing)
    decreases |listing|
  {
    if listing != [] {
      var init := listing[..|listing| - 1];
      var n := listing[|listing| - 1];
      var before := ListingTabs(folder, init);
      ListingTabsInOrder(folder, init);
      var ts := Titles(ListingTabs(folder, listing));
      if EndsWith(n, NoteSuffix) {
        assert ts[..|ts| - 1] == Titles(before);
      } else {
        assert ts == Titles(before);
        SubsequenceOfLonger(ts, init, n);
      }
    }
  }

  // ---------------------------------------------------------------------
  // add_new_tab
  // ---------------------------------------------------------------------

  /**
   * The tab add_new_tab adds, if any: the given name, or when it is empty
   * the dialog's text, with ".txt" appended, at that name inside the folder,
   * unless the dialog was cancelled or left empty or the file exists.
   */
  function NewTab(folder: string, fileName: string, dialog: DialogResult, existing: set<string>): (r: Option<Tab>)
    ensures fileName == "" && (!dialog.ok || dialog.text == "") ==> r == None
    ensures r.Some? ==>
              && r.value.title == (if fileName != "" then fileName else dialog.text) + NoteSuffix
              && r.value.path == Join(folder, r.value.title)
              && r.value.path !in existing
    ensures r.None? && (fileName != "" || (dialog.ok && dialog.text != "")) ==>
              Join(folder, (if fileName != "" then fileName else dialog.text) + NoteSuffix) in existing
  {
    var chosen := if fileName != "" then Some(fileName)
                  else if dialog.ok && dialog.text != "" then Some(dialog.text)
                  else None;
    if chosen.None? then None
    else
      var title := chosen.value + NoteSuffix;
      var path := Join(folder, title);
      if path in existing then None else Some(Tab(path, title))
  }

  /** Every tab add_new_tab adds is a ".txt" file whose title is a non-empty name plus the suffix. */
  lemma NewTabIsNote(folder: string, fileName: string, dialog: DialogResult, existing: set<string>)
    ensures var r := NewTab(folder, fileName, dialog, existing);
      r.Some? ==> EndsWith(r.value.title, NoteSuffix) && |r.value.title| > |NoteSuffix|
  {
  }


  // ---------------------------------------------------------------------
  // load_tabs as a whole
  // ---------------------------------------------------------------------

  /**
   * The tab list after load_tabs, given the tabs already present: the
   * config's tabs when there is a config, else the listing's, else (when
   * that leaves no tab at all) the default "notes" tab.
   */
  function OpenedTabs(folder: string, prior: seq<Tab>, config: Option<Config>, existing: set<string>,
                      listing: seq<string>): (r: seq<Tab>)
    ensures |prior| <= |r| && r[..|prior|] == prior
    ensures config.Some? ==> forall i :: |prior| <= i < |r| ==>
              r[i].path in existing && r[i].path in config.value.files && r[i].title == Basename(r[i].path)
    ensures config.None? ==> forall i :: |prior| <= i < |r| ==>
              EndsWith(r[i].title, NoteSuffix) && r[i].path == Join(folder, r[i].title)
    ensures config.None? && Join(folder, DefaultNoteName + NoteSuffix) !in existing ==> r != []
  {
    if config.Some? then prior + ConfigTabs(config.value.files, existing)
    else
      var found := prior + ListingTabs(folder, listing);
      if found == [] then Listed(NewTab(folder, DefaultNoteName, DialogResult("", false), existing))
      else found
  }

  /**
   * Without a config, a folder with no ".txt" entry opens exactly one tab,
   * "notes.txt" in the folder, unless that file already exists.
   */
  lemma DefaultTabWhenFolderHasNoNotes(folder: string, config: Option<Config>, existing: set<string>,
                                       listing: seq<string>)
    requires config.None?
    requires forall n :: n in listing ==> !EndsWith(n, NoteSuffix)
    ensures var r := OpenedTabs(folder, [], config, existing, listing);
      && (Join(folder, "notes.txt") !in existing ==> r == [Tab(Join(folder, "notes.txt"), "notes.txt")])
      && (Join(folder, "notes.txt") in existing ==> r == [])
  {
    var l := ListingTabs(folder, listing);
    if l != [] {
      ListingTabsExactly(folder, listing, l[0]);
      assert false;
    }
    assert DefaultNoteName + NoteSuffix == "notes.txt";
  }

  // ---------------------------------------------------------------------
  // The objects
  // ---------------------------------------------------------------------

  /** The note shown in one tab: its file and the text in its editor. */
  class NoteTab {
    const filePath: string
    var text: string

    /** A new tab's editor starts empty and then loads its file. */
    constructor (filePath: string, store: map<string, string>)
      ensures this.filePath == filePath
      ensures text == if filePath in store then store[filePath] else ""
    {
      this.filePath := filePath;
      text := "";
      new;
      LoadTextFromFile(store);
    }

    /** The editor shows the file's contents when the file exists, and keeps its text otherwise. */
    method LoadTextFromFile(store: map<string, string>)
      modifies this
      ensures text == if filePath in store then store[filePath] else old(text)
    {
      if filePath in store {
        text := store[filePath];
      }
    }

    /** The file now holds the editor's text; no other file changes. */
    method SaveTextToFile(store: map<string, string>) returns (store': map<string, string>)
      ensures filePath in store' && store'[filePath] == text
      ensures forall p :: p != filePath ==> (p in store' <==> p in store)
      ensures forall p :: p in store && p != filePath ==> store'[p] == store[p]
    {
      store' := store[filePath := text];
    }
  }

  /** A note saved and then opened again in a new tab shows the same text. */
  method SaveThenReopen(tab: NoteTab, store: map<string, string>) returns (store': map<string, string>, reopened: NoteTab)
    ensures fresh(reopened) && reopened.filePath == tab.filePath && reopened.text == tab.text
  {
    store' := tab.SaveTextToFile(store);
    reopened := new NoteTab(tab.filePath, store');
  }

  /** The notes window, reduced to its tab list and the active index. */
  class JottingDownWindow {
    const notesFolder: string
    const configFile: string
    var tabs: seq<Tab>
    var current: int

    /** As in the toolkit's tab widget: no tab is active exactly when there are none. */
    ghost predicate Valid()
      reads this
    {
      if tabs == [] then current == -1 else 0 <= current < |tabs|
    }

    /** The window starts with no tab and loads its tabs at once. */
    constructor (config: Option<Config>, existing: set<string>, listing: seq<string>)
      ensures Valid()
      ensures notesFolder == NotesFolder && configFile == Join(NotesFolder, ConfigFileName)
      ensures tabs == OpenedTabs(NotesFolder, [], config, existing, listing)
      ensures config.Some? && 0 <= config.value.lastActive < |tabs| ==> current == config.value.lastActive
      ensures !(config.Some? && 0 <= config.value.lastActive < |tabs|) ==> current == if tabs == [] then -1 else 0
    {
      notesFolder := NotesFolder;
      configFile := Join(NotesFolder, ConfigFileName);
      tabs := [];
      current := -1;
      new;
      LoadTabs(config, existing, listing);
    }

    /** The tab widget's addTab: the first tab added to an empty widget becomes the active one. */
    method AddTab(t: Tab)
      requires Valid()
      modifies this
      ensures Valid() && tabs == old(tabs) + [t]
      ensures current == if old(tabs) == [] then 0 else old(current)
    {
      if tabs == [] {
        current := 0;
      }
      tabs := tabs + [t];
    }

    /** The tab widget's setCurrentIndex: an index outside the tab list is ignored. */
    method SetCurrentIndex(index: int)
      requires Valid()
      modifies this
      ensures Valid() && tabs == old(tabs)
      ensures current == if 0 <= index < |tabs| then index else old(current)
    {
      if 0 <= index < |tabs| {
        current := index;
      }
    }

    /**
     * load_tabs: with a config, a tab for each listed path that exists, in
     * config order, then the saved index is made active; without one, a tab
     * for each ".txt" entry of the folder, and the default note when that
     * leaves the window without tabs.
     */
    method LoadTabs(config: Option<Config>, existing: set<string>, listing: seq<string>)
      requires Valid()
      modifies this
      ensures Valid()
      ensures tabs == OpenedTabs(notesFolder, old(tabs), config, existing, listing)
      ensures config.Some? && 0 <= config.value.lastActive < |tabs| ==> current == config.value.lastActive
      ensures !(config.Some? && 0 <= config.value.lastActive < |tabs|) ==>
                current == if old(tabs) != [] then old(current) else if tabs == [] then -1 else 0
    {
      if config.Some? {
        OpenFromConfig(config.value.files, existing);
        SetCurrentIndex(config.value.lastActive);
      } else {
        OpenFromListing(listing);
        if tabs == [] {
          AddNewTab(DefaultNoteName, DialogResult("", false), existing);
        }
      }
    }

    /** The loop of load_tabs over config["files"]: a tab for each path that exists. */
    method OpenFromConfig(files: seq<string>, existing: set<string>)
      requires Valid()
      modifies this
      ensures Valid()
      ensures tabs == old(tabs) + ConfigTabs(files, existing)
      ensures current == if old(tabs) != [] then old(current) else if tabs == [] then -1 else 0
    {
      var i := 0;
      while i < |files|
        invariant 0 <= i <= |files| && Valid()
        invariant tabs == old(tabs) + ConfigTabs(files[..i], existing)
        invariant current == if old(tabs) != [] then old(current) else if tabs == [] then -1 else 0
      {
        var p := files[i];
        if p in existing {
          AddTab(Tab(p, Basename(p)));
        }
        assert files[..i + 1][..i] == files[..i];
        i := i + 1;
      }
      assert files[..i] == files;
    }

    /** The loop of load_tabs over the folder listing: a tab for each ".txt" entry. */
    method OpenFromListing(listing: seq<string>)
      requires Valid()
      modifies this
      ensures Valid()
      ensures tabs == old(tabs) + ListingTabs(notesFolder, listing)
      ensures current == if old(tabs) != [] then old(current) else if tabs == [] then -1 else 0
    {
      var i := 0;
      while i < |listing|
        invariant 0 <= i <= |listing| && Valid()
        invariant tabs == old(tabs) + ListingTabs(notesFolder, listing[..i])
        invariant current == if old(tabs) != [] then old(current) else if tabs == [] then -1 else 0
      {
        ListingTabsExtend(notesFolder, listing, i);
        OpenListed(listing[i]);
        i := i + 1;
      }
      assert listing[..i] == listing;
    }

    /** One entry of the folder listing: a tab for it when it is a ".txt" file. */
    method OpenListed(name: string)
      requires Valid()
      modifies this
      ensures Valid()
      ensures tabs == old(tabs) + (if EndsWith(name, NoteSuffix) then [Tab(Join(notesFolder, name), name)] else [])
      ensures current == if old(tabs) != [] then old(current) else if tabs == [] then -1 else 0
    {
      if EndsWith(name, NoteSuffix) {
        AddTab(Tab(Join(notesFolder, name), name));
      }
    }

    /** save_tabs: the config to write for the current tabs. */
    method SaveTabs() returns (config: Config)
      ensures config == SavedConfig(notesFolder, tabs, current)
      ensures |config.files| == |tabs| && config.lastActive == current
      ensures forall i :: 0 <= i < |tabs| ==> config.files[i] == notesFolder + "/" + tabs[i].title
    {
      config := SavedConfig(notesFolder, tabs, current);
    }

    /**
     * add_new_tab: with an empty name the dialog is asked; a cancelled or
     * empty dialog, or a note file that already exists, adds nothing.
     */
    method AddNewTab(fileName: string, dialog: DialogResult, existing: set<string>)
      requires Valid()
      modifies this
      ensures Valid()
      ensures tabs == old(tabs) + Listed(NewTab(notesFolder, fileName, dialog, existing))
      ensures current == if old(tabs) == [] && tabs != [] then 0 else old(current)
    {
      var name := fileName;
      if name == "" {
        if !dialog.ok || dialog.text == "" {
          return;
        }
        name := dialog.text;
      }
      name := name + NoteSuffix;
      var path := Join(notesFolder, name);
      if path !in existing {
        AddTab(Tab(path, name));
      }
    }
  }

  /**
   * Closing the window saves its tabs; a window opened on that config gets
   * the same titles in the same order and the same active tab, provided
   * every title is a plain file name and every saved note file exists.
   */
  method CloseThenReopen(w: JottingDownWindow, existing: set<string>, listing: seq<string>)
    returns (config: Config, reopened: JottingDownWindow)
    requires w.Valid() && w.notesFolder == NotesFolder
    requires forall i :: 0 <= i < |w.tabs| ==> '/' !in w.tabs[i].title
    requires forall i :: 0 <= i < |w.tabs| ==> NotesFolder + "/" + w.tabs[i].title in existing
    ensures fresh(reopened) && Titles(reopened.tabs) == Titles(w.tabs) && reopened.current == w.current
  {
    config := w.SaveTabs();
    SaveLoadRoundTrip(NotesFolder, w.tabs, w.current, existing);
    reopened := new JottingDownWindow(Some(config), existing, listing);
  }
}
