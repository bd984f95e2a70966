/** caps/backup.py and caps/hookinstall.py: backing a settings file up under an unused name, and
    adding or removing the kit's tagged hook entry. JSON text is its value. */
module SettingsFiles {
  import opened Wrappers
  import opened Comprehension
  import opened Text

  /** One entry of an event's hook list; `tag` is its `_caps` member. */
  datatype Hook = Hook(tag: Option<string>, command: string, matcher: Option<string>)

  /** `hooks` is absent from a settings file that never had one; the other members are opaque. */
  datatype Settings = Settings(hooks: Option<map<string, seq<Hook>>>, others: map<string, string>)

  datatype File = Empty | Json(settings: Settings) | NotJson(text: string)

  datatype FileError = FileNotFound(path: string) | JsonDecode(path: string)

  // ---- Backup names ----

  /** `path.bak.STAMP`, then `path.bak.STAMP-2`, `-3` and so on. */
  function BackupName(path: string, stamp: string, k: nat): string {
    path + ".bak." + stamp + if k == 0 then "" else "-" + Decimal(k + 1)
  }

  lemma BackupNamesDiffer(path: string, stamp: string, j: nat, k: nat)
    requires j != k
    ensures BackupName(path, stamp, j) != BackupName(path, stamp, k)
  {
    var base := path + ".bak." + stamp;
    if BackupName(path, stamp, j) == BackupName(path, stamp, k) {
      assert BackupName(path, stamp, j)[|base|..] == if j == 0 then "" else "-" + Decimal(j + 1);
      assert BackupName(path, stamp, k)[|base|..] == if k == 0 then "" else "-" + Decimal(k + 1);
      if j != 0 && k != 0 {
        assert ("-" + Decimal(j + 1))[1..] == Decimal(j + 1);
        assert ("-" + Decimal(k + 1))[1..] == Decimal(k + 1);
        DecimalInjective(j + 1, k + 1);
      }
      assert false;
    }
  }

  ghost predicate FirstUnused(path: string, stamp: string, k: nat, files: map<string, File>) {
    BackupName(path, stamp, k) !in files && forall j: nat :: j < k ==> BackupName(path, stamp, j) in files
  }

  // ---- Hook lists ----

  function NotTagged(tag: string): Hook -> bool {
    (h: Hook) => h.tag != Some(tag)
  }

  function Untagged(hooks: seq<Hook>, tag: string): seq<Hook> {
    Filter(hooks, NotTagged(tag))
  }

  function HooksOf(s: Settings): map<string, seq<Hook>> {
    if s.hooks.Some? then s.hooks.value else map[]
  }

  function EntriesFor(s: Settings, event: string): seq<Hook> {
    if event in HooksOf(s) then HooksOf(s)[event] else []
  }

  function WithEntries(s: Settings, event: string, entries: seq<Hook>): Settings {
    s.(hooks := Some(HooksOf(s)[event := entries]))
  }

  function Installed(s: Settings, event: string, tag: string, command: string, matcher: Option<string>): Settings {
    WithEntries(s, event, Untagged(EntriesFor(s, event), tag) + [Hook(Some(tag), command, matcher)])
  }

  function Uninstalled(s: Settings, event: string, tag: string): Settings {
    WithEntries(s, event, Untagged(EntriesFor(s, event), tag))
  }

  const NO_SETTINGS := Settings(None, map[])

  function Parse(f: File): Option<Settings> {
    match f
    case Empty => Some(NO_SETTINGS)
    case Json(s) => Some(s)
    case NotJson(_) => None
  }

  /** What a settings file holds after a hook edit, from what it held before: this event's entries of
      other tags in order and then `added`, every other event's list and every other member as they
      were; from nothing, only this event's list. A file that is not JSON is never edited. */
  ghost predicate HookEdited(before: Option<File>, after: Option<File>, event: string, tag: string, added: seq<Hook>) {
    && after.Some? && after.value.Json? && after.value.settings.hooks.Some?
    && var others, lists := after.value.settings.others, after.value.settings.hooks.value;
      match before
      case Some(Json(Settings(Some(was), wereOthers))) =>
        && others == wereOthers && lists.Keys == was.Keys + {event}
        && (forall e :: e in was && e != event ==> lists[e] == was[e])
        && lists[event] == Filter(if event in was then was[event] else [], (h: Hook) => h.tag != Some(tag)) + added
      case Some(Json(Settings(None, wereOthers))) => others == wereOthers && lists == map[event := added]
      case Some(NotJson(_)) => false
      case _ => others == map[] && lists == map[event := added]
  }

  lemma EditedAsStated(before: Option<File>, event: string, tag: string, added: seq<Hook>)
    requires before.Some? ==> Parse(before.value).Some?
    ensures var s := if before.Some? then Parse(before.value).value else NO_SETTINGS;
      HookEdited(before, Some(Json(WithEntries(s, event, Untagged(EntriesFor(s, event), tag) + added))), event, tag, added)
  {
    var s := if before.Some? then Parse(before.value).value else NO_SETTINGS;
    SameFilter(EntriesFor(s, event), NotTagged(tag), (h: Hook) => h.tag != Some(tag));
    assert [] + added == added;
  }

  method DropTagged(hooks: seq<Hook>, tag: string) returns (kept: seq<Hook>)
    ensures kept == Untagged(hooks, tag)
  {
    kept := [];
    for i := 0 to |hooks|
      invariant kept == Untagged(hooks[..i], tag)
    {
      FilterSnoc(hooks[..i], hooks[i], NotTagged(tag));
      assert hooks[..i + 1] == hooks[..i] + [hooks[i]];
      if hooks[i].tag != Some(tag) {
        kept := kept + [hooks[i]];
      }
    }
    assert hooks[..|hooks|] == hooks;
  }

  class FileSystem {
    var files: map<string, File>

    constructor (files: map<string, File>)
      ensures this.files == files
    {
      this.files := files;
    }

    /** Ends for every finite directory, on the first unused name. */
    method UnusedName(path: string, stamp: string) returns (candidate: string)
      ensures exists k :: FirstUnused(path, stamp, k, files) && candidate == BackupName(path, stamp, k)
    {
      candidate := path + ".bak." + stamp;
      var n: nat := 2;
      ghost var tried: set<string> := {};
      assert candidate == BackupName(path, stamp, 0) by {
        assert candidate + "" == candidate;
      }
      while candidate in files
        invariant n >= 2 && candidate == BackupName(path, stamp, n - 2)
        invariant forall j: nat :: j < n - 2 ==> BackupName(path, stamp, j) in tried
        invariant forall t :: t in tried ==> exists j: nat :: j < n - 2 && t == BackupName(path, stamp, j)
        invariant tried <= files.Keys
        decreases files.Keys - tried
      {
        forall j: nat | j < n - 2
          ensures BackupName(path, stamp, j) != candidate
        {
          BackupNamesDiffer(path, stamp, j, n - 2);
        }
        assert candidate !in tried;
        tried := tried + {candidate};
        candidate := path + ".bak." + stamp + "-" + Decimal(n);
        assert candidate == path + ".bak." + stamp + ("-" + Decimal(n));
        n := n + 1;
      }
      assert FirstUnused(path, stamp, n - 2, files);
    }

    /** The old file is copied under the first unused name, and nothing else is written. */
    method BackupFile(path: string, stamp: string) returns (r: Result<string, FileError>)
      modifies this
      ensures r.Success? <==> path in old(files)
      ensures r.Failure? ==> files == old(files)
      ensures r.Success? ==>
        && r.value !in old(files)
        && files == old(files)[r.value := old(files)[path]]
        && exists k :: FirstUnused(path, stamp, k, old(files)) && r.value == BackupName(path, stamp, k)
    {
      var candidate := UnusedName(path, stamp);
      if path !in files {
        return Failure(FileNotFound(path));
      }
      files := files[candidate := files[path]];
      return Success(candidate);
    }

    /** What both hook commands do around the list edit: nothing on text that is not JSON; otherwise
        the old file, if any, survives under a fresh name and the new settings take its place. */
    ghost static predicate Replaced(before: map<string, File>, after: map<string, File>, path: string, stamp: string,
                                    settings: Settings)
    {
      if path in before then
        exists k :: FirstUnused(path, stamp, k, before) &&
          after == before[BackupName(path, stamp, k) := before[path]][path := Json(settings)]
      else after == before[path := Json(settings)]
    }

    function Current(path: string): Option<Settings>
      reads this
    {
      if path in files then Parse(files[path]) else Some(NO_SETTINGS)
    }

    method InstallHook(path: string, command: string, event: string, tag: string, matcher: Option<string>, stamp: string)
      returns (r: Result<(), FileError>)
      modifies this
      ensures old(Current(path)).None? ==> r == Failure(JsonDecode(path)) && files == old(files)
      ensures old(Current(path)).Some? ==> r.Success?
      ensures old(Current(path)).Some? ==>
        Replaced(old(files), files, path, stamp, Installed(old(Current(path)).value, event, tag, command, matcher))
      ensures r.Failure? <==> path in old(files) && old(files)[path].NotJson?
      ensures r.Success? ==>
        HookEdited(Get(old(files), path), Get(files, path), event, tag, [Hook(Some(tag), command, matcher)])
    {
      var current := Current(path);
      if current.None? {
        return Failure(JsonDecode(path));
      }
      EditedAsStated(Get(files, path), event, tag, [Hook(Some(tag), command, matcher)]);
      if path in files {
        var backup := BackupFile(path, stamp);
      }
      var entries := DropTagged(EntriesFor(current.value, event), tag);
      entries := entries + [Hook(Some(tag), command, matcher)];
      files := files[path := Json(WithEntries(current.value, event, entries))];
      return Success(());
    }

    method UninstallHook(path: string, event: string, tag: string, stamp: string) returns (r: Result<(), FileError>)
      modifies this
      ensures old(Current(path)).None? ==> r == Failure(JsonDecode(path)) && files == old(files)
      ensures old(Current(path)).Some? ==> r.Success?
      ensures old(Current(path)).Some? ==>
        Replaced(old(files), files, path, stamp, Uninstalled(old(Current(path)).value, event, tag))
      ensures r.Failure? <==> path in old(files) && old(files)[path].NotJson?
      ensures r.Success? ==> HookEdited(Get(old(files), path), Get(files, path), event, tag, [])
    {
      var current := Current(path);
      if current.None? {
        return Failure(JsonDecode(path));
      }
      EditedAsStated(Get(files, path), event, tag, []);
      if path in files {
        var backup := BackupFile(path, stamp);
      }
      var entries := DropTagged(EntriesFor(current.value, event), tag);
      assert entries + [] == entries;
      files := files[path := Json(WithEntries(current.value, event, entries))];
      return Success(());
    }
  }

  // ---- The algebra of the two edits ----

  /** Installing leaves one entry of its tag, last, after the untagged ones in order, and touches
      nothing else in the file. */
  lemma InstallLeavesOneTaggedLast(s: Settings, event: string, tag: string, command: string, matcher: Option<string>)
    ensures var after := Installed(s, event, tag, command, matcher);
      var entries := EntriesFor(after, event);
      && entries != [] && entries[|entries| - 1] == Hook(Some(tag), command, matcher)
      && entries[..|entries| - 1] == Untagged(EntriesFor(s, event), tag)
      && (forall i :: 0 <= i < |entries| - 1 ==> entries[i].tag != Some(tag))
      && (forall e :: e != event ==> EntriesFor(after, e) == EntriesFor(s, e))
      && after.others == s.others
  {
    var kept := Untagged(EntriesFor(s, event), tag);
    assert forall i :: 0 <= i < |kept| ==> kept[i] in kept;
  }

  /** Installing again replaces the earlier entry; with the same command it changes nothing. */
  lemma InstallAgainReplaces(s: Settings, event: string, tag: string,
                             command: string, matcher: Option<string>, command2: string, matcher2: Option<string>)
    ensures Installed(Installed(s, event, tag, command, matcher), event, tag, command2, matcher2) ==
      Installed(s, event, tag, command2, matcher2)
  {
    var kept := Untagged(EntriesFor(s, event), tag);
    FilterSnoc(kept, Hook(Some(tag), command, matcher), NotTagged(tag));
    FilterKeepsAll(kept, NotTagged(tag));
    var after := Installed(s, event, tag, command, matcher);
    assert kept + [] == kept;
    assert Untagged(EntriesFor(after, event), tag) == kept;
    assert HooksOf(after)[event := kept + [Hook(Some(tag), command2, matcher2)]] ==
      HooksOf(s)[event := kept + [Hook(Some(tag), command2, matcher2)]];
  }

  /** Uninstalling undoes an install: the original list without entries of the tag remains. */
  lemma UninstallUndoesInstall(s: Settings, event: string, tag: string, command: string, matcher: Option<string>)
    ensures Uninstalled(Installed(s, event, tag, command, matcher), event, tag) == Uninstalled(s, event, tag)
    ensures EntriesFor(Uninstalled(Installed(s, event, tag, command, matcher), event, tag), event) ==
      Untagged(EntriesFor(s, event), tag)
  {
    var kept := Untagged(EntriesFor(s, event), tag);
    FilterSnoc(kept, Hook(Some(tag), command, matcher), NotTagged(tag));
    FilterKeepsAll(kept, NotTagged(tag));
    var after := Installed(s, event, tag, command, matcher);
    assert kept + [] == kept;
    assert Untagged(EntriesFor(after, event), tag) == kept;
    assert HooksOf(after)[event := kept] == HooksOf(s)[event := kept];
  }

  lemma TwoTagsOneEvent(s: Settings, event: string, tag: string, tag2: string, h: Hook)
    requires h.tag == Some(tag2) && tag != tag2
    ensures Untagged(Untagged(EntriesFor(s, event), tag2) + [h], tag) ==
      Untagged(Untagged(EntriesFor(s, event), tag), tag2) + [h]
  {
    FilterSnoc(Untagged(EntriesFor(s, event), tag2), h, NotTagged(tag));
    FiltersCommute(EntriesFor(s, event), NotTagged(tag2), NotTagged(tag));
  }

  lemma WriteTwice(s: Settings, event: string, first: seq<Hook>, second: seq<Hook>)
    ensures EntriesFor(WithEntries(s, event, first), event) == first
    ensures WithEntries(WithEntries(s, event, first), event, second) == WithEntries(s, event, second)
  {
    assert HooksOf(s)[event := first][event := second] == HooksOf(s)[event := second];
  }

  lemma WriteApart(s: Settings, event: string, event2: string, x: seq<Hook>, y: seq<Hook>)
    requires event != event2
    ensures WithEntries(WithEntries(s, event2, y), event, x) == WithEntries(WithEntries(s, event, x), event2, y)
  {
    assert HooksOf(s)[event2 := y][event := x] == HooksOf(s)[event := x][event2 := y];
  }

  /** Hooks of two events, or two tags on one event, do not disturb each other: one can be
      uninstalled whether or not the other has been installed since. */
  lemma TagsAreIndependent(s: Settings, event: string, tag: string, event2: string, tag2: string,
                           command2: string, matcher2: Option<string>)
    requires tag != tag2
    ensures Uninstalled(Installed(s, event2, tag2, command2, matcher2), event, tag) ==
      Installed(Uninstalled(s, event, tag), event2, tag2, command2, matcher2)
  {
    var h := Hook(Some(tag2), command2, matcher2);
    var x, y := Untagged(EntriesFor(s, event), tag), Untagged(EntriesFor(s, event2), tag2) + [h];
    if event == event2 {
      TwoTagsOneEvent(s, event, tag, tag2, h);
      WriteTwice(s, event, y, Untagged(y, tag));
      WriteTwice(s, event, x, Untagged(x, tag2) + [h]);
    } else {
      WriteApart(s, event, event2, x, y);
    }
  }
}
