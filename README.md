# FlowBuddy addon registry and notes tabs, modelled in Dafny

This project models two small state machines of the FlowBuddy desktop widget.

- **The addon loader and registry** (`src/addon.py`), in `addon.dfy`, module `Addon`.
  - `load_addons` walks the addons folder. Each directory `d` that holds `d/d.py` is imported as the module `<ADDONS_NAME>.d.d`.
  - A process-wide "currently loading" marker is held around each import.
  - Each imported module goes into `add_ons` and its source path into `add_on_paths`.
  - `AddOnBase(...)` is a per-addon singleton. While an import runs, it returns or creates the instance of the module being imported. Otherwise it looks an instance up by name, or raises `ValueError`.
  - The module globals and the class-level `AddOnBase.instances` are the fields of one `Registry` object. Instances are objects of class `AddOnBase`.
  - Registry methods are proved against the value-level function `LoadEntries`. The lemmas beside it relate the result to each directory of the walk, by index.
- **The notes window's tab list** (`src/notes.py`), in `notes.dfy`, module `Notes`.
  - `load_tabs` opens one tab per existing path listed in the config, or else one tab per `.txt` entry of the notes folder, or else a default `notes.txt` tab.
  - `save_tabs` writes `notes/<title>` for every tab, plus the active index.
  - `add_new_tab` appends a `.txt` tab unless the dialog was cancelled or the file already exists.
  - `JottingDownWindow` is a class holding the tab list `(path, title)` and the active index. `NoteTab` is a class holding one note's editor text.
- `paths.dfy` (module `Paths`) holds POSIX `os.path.join` with two arguments and `os.path.basename`. `wrappers.dfy` holds `Option` and `Result`.

The environment is supplied as inputs:
- **The directory walk** is a sequence of `DirEntry(name, path, hasMatchingFile)`. A flag says whether the addons root folder exists.
- **Importing** is a function from a qualified module name to `Imported(module)` or `ImportFailed`. A module may instantiate `AddOnBase` at module scope (`createsAddOn`) and give that instance an activate shortcut (`activateKey`). The model then runs `AddOnBase()` while the marker is set and calls `set_activate_shortcut` with that key, as the addon's code would.
- **ADDONS_NAME** is the registry's `addonsName` field. It comes from the `FileSystem` module, which is not part of this model.
- **The file system** is a set of existing paths and the folder listing as a sequence of names.
- **`config.json`** is an already parsed `Option<Config>`.
- **Note file contents** are a map from path to text.

The tab widget's own index rules are modelled as Qt documents them:
- adding the first tab makes it current;
- `setCurrentIndex` ignores an index outside the tab list;
- with no tabs, the index is -1.

## Model

| member | source | states |
|---|---|---|
| Addon.QualifiedName | src/addon.py:31 | the module name `ADDONS_NAME.d.d` is two characters (the dots) longer than `ADDONS_NAME` and two copies of `d`; that it determines `d` is `QualifiedNameInjective` |
| Addon.SourceFile | src/addon.py:28 | the file tested for a directory is `join(dir_path, d + ".py")`: it ends with `d.py` and, unless `d` begins with `/`, starts with the directory's path |
| Addon.QualifiedNameInjective | src/addon.py:31 | two directories whose module names `ADDONS_NAME.d.d` coincide have the same name, so directories with different names never share a registry key (folders with the same name at different depths of the walk do share one) |
| Addon.LoadEntries | src/addon.py:20-36 | a load pass only adds keys to `add_ons` and to the instance registry, and if both loader maps had the same keys before, they still have the same keys after (they grow in lockstep) |
| Addon.LoadRecordsExactly | src/addon.py:25-36 | after a pass, a key is in `add_ons` (and in `add_on_paths`) exactly when it was there before or some directory reached before any failing import has the matching `.py` file, imported successfully and has that module name; directories without the file add nothing; a recorded key holds the module its import returned; every other entry keeps its old value; the instance registry gains exactly the recorded modules that instantiate AddOnBase |
| Addon.LoadPathOfLastEntry | src/addon.py:27-36 | the path recorded for an addon is `join(dir_path, d + ".py")` of the last recorded directory with that name |
| Addon.LoadErrorIff | src/addon.py:32-34 | the pass raises exactly when the import of some matching directory raises; a pass that does not raise, started with no marker, leaves the marker cleared |
| Addon.LoadStopsAtFirstFailure | src/addon.py:32-36 | when the first raising import is that of directory i, the pass ends with that module's name as its error, the marker is left holding that name, and neither map gains an entry for it |
| Addon.AddOnBase.Init | src/addon.py:62-65 | `_init`: a new instance is named after the loading module and has no activate shortcut |
| Addon.AddOnBase.SetActivateShortcut | src/addon.py:71-74 | the stored activate shortcut is the key just given (last write wins); the name is a constant and the registry is untouched |
| Addon.Registry.constructor | src/addon.py:14-17 | the loader maps and the instance registry start empty and no module is loading |
| Addon.Registry.New | src/addon.py:43-60 | `__new__`. With the marker set and an instance under it: returns that very instance; nothing changes, including its fields (no re-init). With the marker set and no instance under it: returns a fresh instance named after the marker with no shortcut; it is stored under the marker and every other entry is unchanged. While the marker is set, a given name only raises the warning. With no marker: returns `instances[name]` and changes nothing, or fails with `InstanceNotFound(name)` (the ValueError) when the name is absent or None. The loader maps and the marker never change, and the instance map only grows |
| Addon.Registry.ImportModule | src/addon.py:32-33 | importing under the marker returns the import's outcome; the instance registry gains the module's key exactly when the module instantiates AddOnBase, and keeps every existing entry and its fields; a new instance is fresh and holds the activate shortcut the module's code sets, or none when it sets none |
| Addon.Registry.LoadDirectory | src/addon.py:26-36 | one directory of the walk has exactly the effect of one step of `LoadEntries`: skipped without the matching file, otherwise marker set, module imported, marker cleared, module and path recorded, or on a raising import the pass stops with the marker still set; an instance it creates holds the shortcut its module's code sets |
| Addon.Registry.LoadAddOns | src/addon.py:20-36 | `load_addons`: with the root folder missing nothing changes; otherwise the new state and the error equal `LoadEntries` of the walk from the old state; existing instances keep their identity and fields, and each new one is fresh, stored under a module whose code instantiates AddOnBase, and holds the activate shortcut that code sets (none when it sets none) |
| Addon.InstantiateTwiceWhileLoading | src/addon.py:46-56 | two `AddOnBase()` calls during one module's import return the same object, named after the module, and a shortcut set between the calls survives the second call, even when that call passes a name |
| Addon.LoadThenLookUp | src/addon.py:20-60 | loading a fresh registry with one folder `root/d` holding `d.py` whose module instantiates AddOnBase records the module and `join(join(root, d), d + ".py")` under `ADDONS_NAME.d.d`, leaves no marker, and a later lookup by that name returns the very instance stored under it during loading |
| Paths.EndsWithCharacters | src/notes.py:115 | `EndsWith`, the model of `str.endswith`, holds exactly when the last characters of the string are those of the suffix, one by one |
| Paths.Join | src/notes.py:141 | `os.path.join(a, b)` ends with `b` and, unless `b` is absolute, starts with `a` |
| Paths.Basename | src/notes.py:108 | `os.path.basename(p)` is a suffix of `p` without any `/`, and it is either all of `p` or is preceded by a `/` |
| Paths.BasenameAfterSeparator | src/notes.py:108 | the basename of `dir + "/" + name` is `name` when `name` has no `/` |
| Notes.SavedConfig | src/notes.py:124-130 | the config `save_tabs` writes has one path per tab, in tab order; path i is `notes_folder + "/"` followed by tab i's title; `last_active` is the current index |
| Notes.ConfigTabs | src/notes.py:106-109 | the tabs opened from `config["files"]` are at most as many as the listed paths; each has a listed path that exists and is titled by its basename |
| Notes.ConfigTabsExactly | src/notes.py:106-109 | a tab is opened from the config exactly when its path is listed in `config["files"]` and exists; its title is the path's basename |
| Notes.ConfigTabsInOrder | src/notes.py:105-109 | the paths of the opened tabs form a subsequence of `config["files"]`, so config order is kept |
| Notes.ConfigTabsCount | src/notes.py:106-109 | each path that exists opens as many tabs as it has occurrences in `config["files"]`, duplicates included; a path that does not exist opens none |
| Notes.ConfigTabsAllExist | src/notes.py:106-109 | when every listed path exists, tab i is exactly `(files[i], basename(files[i]))` for every i, and there are as many tabs as paths |
| Notes.SaveLoadRoundTrip | src/notes.py:124-130 | the config `save_tabs` builds, loaded back with every saved path existing and no title containing `/`, gives the same titles in the same order, the saved paths as tab paths, and the saved active index |
| Notes.RoundTripLosesDirectoryInTitle | src/notes.py:126 | without the plain-title condition the round trip fails: a tab titled `a/b.txt` is saved as `notes/a/b.txt` and comes back titled `b.txt` |
| Notes.ListingTabs | src/notes.py:114-117 | the tabs opened from the folder listing are at most as many as its entries; each is titled by a name ending in `.txt` and has the path `join(notes_folder, name)` |
| Notes.ListingTabsExactly | src/notes.py:114-117 | without a config, a tab is opened exactly for each listed name ending in `.txt`, at `join(notes_folder, name)` and titled by that name |
| Notes.ListingTabsCount | src/notes.py:114-117 | each name opens as many tabs as it occurs in the listing when it ends in `.txt` and none otherwise, so together with the order lemma the tab titles are exactly the listing's `.txt` entries |
| Notes.ListingTabsInOrder | src/notes.py:114-117 | the titles opened from the folder form a subsequence of the listing, so listing order is kept |
| Notes.NewTab | src/notes.py:134-145 | the tab `add_new_tab` adds: none when the name is empty and the dialog was cancelled or left empty; otherwise, when one is added, its title is the given name (or the dialog's text) plus `.txt`, its path is that title joined to the notes folder, and that path did not exist; when none is added for a chosen name, that file exists |
| Notes.NewTabIsNote | src/notes.py:139 | every tab `add_new_tab` adds has a title ending in `.txt` with a non-empty name before it |
| Notes.OpenedTabs | src/notes.py:99-121 | the tab list after `load_tabs` starts with the tabs already present. With a config, each added tab has an existing path listed in the config and is titled by its basename. Without one, each added tab is a `.txt` title at `join(notes_folder, title)`, and the list is never empty unless `notes.txt` already exists |
| Notes.DefaultTabWhenFolderHasNoNotes | src/notes.py:119-121 | with no config and no `.txt` entry in the folder, a window loads exactly one tab `(join(notes_folder, "notes.txt"), "notes.txt")` if that file does not exist, and no tab otherwise |
| Notes.NoteTab.constructor | src/notes.py:21-24 | a new note tab remembers its file and shows the file's text, or nothing when the file does not exist |
| Notes.NoteTab.LoadTextFromFile | src/notes.py:34-38 | the editor shows the file's stored text when the file exists and keeps its text otherwise |
| Notes.NoteTab.SaveTextToFile | src/notes.py:40-42 | afterwards the note's file holds the editor's text, and every other file is as it was |
| Notes.SaveThenReopen | src/notes.py:34-42 | saving a note and opening its file in a new tab shows the same text |
| Notes.JottingDownWindow.constructor | src/notes.py:55-76 | the window uses the `notes` folder and `notes/config.json` and starts with the tabs `load_tabs` opens into an empty widget; the active tab is the saved index when that is in range, else the first tab, or -1 with no tabs |
| Notes.JottingDownWindow.AddTab | src/notes.py:109 | the tab widget's `addTab`: appends the tab, and the first tab added to an empty widget becomes current |
| Notes.JottingDownWindow.SetCurrentIndex | src/notes.py:111 | the tab widget's `setCurrentIndex`: the index becomes current when it is in range and is ignored otherwise; the tabs are unchanged |
| Notes.JottingDownWindow.LoadTabs | src/notes.py:99-121 | `load_tabs`: the tab list becomes the old tabs followed by the config's tabs, or the listing's `.txt` tabs, or (when that leaves no tab) the default note's tab; with a config, the saved index is made current when it is in range |
| Notes.JottingDownWindow.OpenFromConfig | src/notes.py:106-109 | the loop over `config["files"]` appends exactly the config's tabs, in order |
| Notes.JottingDownWindow.OpenFromListing | src/notes.py:114-117 | the loop over the folder listing appends exactly the `.txt` tabs, in listing order |
| Notes.JottingDownWindow.OpenListed | src/notes.py:115-117 | one listing entry adds its tab exactly when its name ends in `.txt` |
| Notes.JottingDownWindow.SaveTabs | src/notes.py:123-132 | `save_tabs`: one path `notes_folder + "/" + title` per tab, in tab order, as many as there are tabs, and `last_active` equal to the current index |
| Notes.JottingDownWindow.AddNewTab | src/notes.py:134-145 | `add_new_tab`: the tab list gains exactly the tab `NewTab` describes and nothing else, so a cancelled or empty dialog, or an existing file, leaves it unchanged |
| Notes.CloseThenReopen | src/notes.py:162-163 | closing the window saves its tabs; a window opened on that config has the same titles in the same order and the same active tab, when every title is a plain file name and every saved note file exists |

## Left out

- **Widgets:** PyQt widget construction, layouts, stylesheets, fonts (`get_custom_font`), `paintEvent`, window flags and sizes, and keyboard shortcuts bound to widgets. These are user-interface code with no bookkeeping.
- **Mouse dragging:** `mousePressEvent`, `mouseMoveEvent` and `mouseReleaseEvent`. They only move the window on screen.
- **I/O, as inputs:** `QInputDialog.getText` is the input `DialogResult(text, ok)`. The `QMessageBox` warning and the `print` warning are modelled only as "no state change" (plus a `warned` flag for the latter).
- **The import mechanism:** `importlib.import_module` and arbitrary addon code are a supplied outcome per module name. That outcome is deterministic, like Python's module cache. A module whose instance already exists was imported before, so its code is not run again. Three cases are not modelled: module code that raises after instantiating AddOnBase, nested imports that overwrite the marker, and module-scope effects on the instance other than `set_activate_shortcut` (such as assigning its attributes).
- **The file system:** the traversal order of `os.walk` is whatever order the supplied walk has. `exists`, `isfile`, `listdir` and `makedirs` are not modelled beyond the supplied set and listing: the notes folder is assumed to exist.
- **JSON:** encoding and decoding of `config.json` is not modelled, because the config is taken already parsed.
- **Global hotkeys:** registration (`HotKeys.add_global_shortcut`, `format_shortcut_string`), `AddOnBase.set_shortcut`, `keyboard.add_hotkey` and `system_tray_icon` are calls into code that is not part of this model. So the accumulation of global bindings on repeated `set_activate_shortcut` calls is not modelled either.
- **Small hooks:** `AddOnBase.activate()` is an empty hook. The `__main__` block (`toggle_window`) is application start-up.
- **Subclassing:** `super().__new__(cls)` creates an object of the addon's subclass of AddOnBase. The model creates an `AddOnBase`, because subclass bodies are addon code.
- **Path separator:** paths follow POSIX `os.path` rules (separator `/`). Path semantics on Windows are not modelled.
- **File read and write errors:** `save_text_to_file` (src/notes.py:41) and `save_tabs` (src/notes.py:131) open a file for writing. That raises when the folder is missing or the file is not writable; a dialog name such as `a/b`, which gives `notes/a/b.txt`, is one way this happens. `load_text_from_file` (src/notes.py:35-37) reads any path that exists. That raises when the path is a directory (for example a folder named `x.txt` in the notes folder, which the listing at src/notes.py:115 accepts), when the file is not readable, or when its contents cannot be decoded. Such a raise aborts `load_tabs` and the window's construction. `SaveTextToFile`, `SaveTabs`, `NoteTab`'s constructor and `LoadTextFromFile` always succeed, and `ListingTabs`/`OpenListed` open a tab for every `.txt` entry: these I/O errors are not modelled.
- **Note text and existence:** note text is a map from path to text that is separate from the set of existing paths. Nothing in the model ties a saved note to the existence set, or keeps the editor text in sync with edits (`textChanged`).
