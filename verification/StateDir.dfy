/**
 The agent's state directory: every file is replaced through a temporary one and a rename. A run may
 fail or die between any two file steps, or in the middle of a write.
 */
module StateDirs {
  import opened Basics

  const KEY_FILE := "agent.key"
  const CONFIG_FILE := "config.json"
  const LAST_RUN_FILE := "last-run.json"

  /** What becomes of one file step. A run that dies may have taken the step, or part of a write. */
  datatype Fate = Done | Refused(partial: nat) | Died(taken: bool, partial: nat)

  /** How an operation ended: with a value, with an error, or never. */
  datatype Ending<+T> = Returned(value: T) | Errored | Dead

  /** A private key, told apart from others by its secret scalar. */
  datatype Key = Key(scalar: nat)

  /** The key format: what is written for a key, and what a file's contents parse to. */
  datatype KeyFormat = KeyFormat(encode: Key -> string, parse: string -> Option<Key>) {
    ghost predicate RoundTrips() { forall k :: parse(encode(k)) == Some(k) }
  }

  // ── what an operation may do to the named files ────────────────────────────

  type Files = map<string, string>

  /** The other files are untouched, and this one holds its old contents or all of the new. */
  ghost predicate Replaces(before: Files, after: Files, name: string, data: string) {
    after == before || after == before[name := data]
  }

  ghost predicate Saves(before: Files, after: Files, name: string, data: string, ending: Ending<()>) {
    && Replaces(before, after, name, data)
    && (ending.Returned? ==> after == before[name := data])
  }

  ghost predicate LoadsKey(format: KeyFormat, before: Files, after: Files, made: Key, ending: Ending<Key>) {
    if KEY_FILE in before then
      && after == before
      && (ending.Returned? ==> format.parse(before[KEY_FILE]) == Some(ending.value))
    else
      && Replaces(before, after, KEY_FILE, format.encode(made))
      && (ending.Returned? ==> ending.value == made && after == before[KEY_FILE := format.encode(made)])
  }

  // ── the directory ──────────────────────────────────────────────────────────

  class StateDir {
    const fates: nat -> Fate
    var steps: nat
    var files: Files
    // Temporary files, by the order they were created in; nothing once renamed or removed.
    var temps: seq<Option<string>>

    constructor (fates: nat -> Fate, files: Files)
      ensures this.fates == fates && this.files == files
    {
      this.fates, this.files := fates, files;
      steps, temps := 0, [];
    }

    ghost predicate AllGoesWell() { forall k :: fates(k).Done? }

    method Next() returns (fate: Fate)
      modifies this`steps
      ensures AllGoesWell() ==> fate.Done?
    {
      fate := fates(steps);
      steps := steps + 1;
    }

    /** A step that changes nothing a reader could see: a mode, an owner, a flush, a close. */
    method Quiet() returns (fate: Fate)
      modifies this`steps
      ensures AllGoesWell() ==> fate.Done?
    {
      fate := Next();
    }

    method CreateTemp() returns (fate: Fate, tmp: nat)
      modifies this`steps, this`temps
      ensures AllGoesWell() ==> fate.Done?
      ensures fate.Done? ==> tmp < |temps| && temps == old(temps) + [Some("")] && tmp == |old(temps)|
    {
      fate := Next();
      tmp := |temps|;
      if fate.Done? || (fate.Died? && fate.taken) {
        temps := temps + [Some("")];
      }
    }

    method WriteTemp(tmp: nat, data: string) returns (fate: Fate)
      requires tmp < |temps| && temps[tmp] == Some("")
      modifies this`steps, this`temps
      ensures AllGoesWell() ==> fate.Done?
      ensures |temps| == |old(temps)| && temps == old(temps)[tmp := temps[tmp]]
      ensures fate.Done? ==> temps[tmp] == Some(data)
    {
      fate := Next();
      var put := match fate
        case Done => |data|
        case Refused(n) => Basics.Min(n, |data|)
        case Died(_, n) => Basics.Min(n, |data|);
      temps := temps[tmp := Some(data[..put])];
      assert data[..|data|] == data;
    }

    method RemoveTemp(tmp: nat) returns (fate: Fate)
      requires tmp < |temps|
      modifies this`steps, this`temps
      ensures AllGoesWell() ==> fate.Done? && temps == old(temps)[tmp := None]
    {
      fate := Next();
      if fate.Done? || (fate.Died? && fate.taken) {
        temps := temps[tmp := None];
      }
    }

    /** The rename takes effect at once or not at all. */
    method Rename(tmp: nat, name: string, ghost data: string) returns (fate: Fate)
      requires tmp < |temps| && temps[tmp] == Some(data)
      modifies this`steps, this`temps, this`files
      ensures AllGoesWell() ==> fate.Done?
      ensures Replaces(old(files), files, name, data)
      ensures |temps| == |old(temps)| && temps == old(temps)[tmp := temps[tmp]]
      ensures fate.Done? ==> files == old(files)[name := data]
      ensures fate.Refused? ==> files == old(files)
    {
      fate := Next();
      if fate.Done? || (fate.Died? && fate.taken) {
        files := files[name := temps[tmp].value];
        temps := temps[tmp := None];
      }
    }

    /** Replaces a file whole, or leaves it as it was. */
    method WriteAtomic(name: string, data: string) returns (ending: Ending<()>)
      modifies this
      ensures Saves(old(files), files, name, data, ending)
      ensures AllGoesWell() ==> ending.Returned? && temps == old(temps) + [None]
    {
      var fate, tmp := CreateTemp();
      if !fate.Done? {
        return Stop(fate);
      }
      fate := Quiet(); // chmod
      if fate.Done? {
        fate := WriteTemp(tmp, data);
      }
      if fate.Done? {
        fate := Quiet(); // sync
      }
      if fate.Done? {
        fate := Quiet(); // close
      }
      if fate.Done? {
        fate := Quiet(); // adopt
      }
      if fate.Done? {
        fate := Rename(tmp, name, data);
      }
      if fate.Died? {
        return Dead;
      }
      ending := if fate.Done? then Returned(()) else Errored;
      fate := RemoveTemp(tmp);
      if fate.Died? {
        ending := Dead;
      }
    }

    function Stop<T>(fate: Fate): Ending<T> { if fate.Died? then Dead else Errored }

    /** The key the directory holds, or the newly made one once it is in place. */
    method LoadOrCreateKey(format: KeyFormat, made: Key) returns (ending: Ending<Key>)
      modifies this
      ensures LoadsKey(format, old(files), files, made, ending)
      ensures AllGoesWell() ==> if KEY_FILE in old(files)
        then ending.Returned? == format.parse(old(files)[KEY_FILE]).Some?
        else ending.Returned? && temps == old(temps) + [None]
    {
      var fate := Quiet(); // read
      if !fate.Done? {
        return Stop(fate);
      }
      if KEY_FILE in files {
        var raw := files[KEY_FILE];
        fate := Quiet(); // secure
        if !fate.Done? {
          return Stop(fate);
        }
        var parsed := format.parse(raw);
        return if parsed.Some? then Returned(parsed.value) else Errored;
      }
      var encoded := format.encode(made);
      var tmp;
      fate, tmp := CreateTemp();
      if !fate.Done? {
        return Stop(fate);
      }
      fate := WriteTemp(tmp, encoded);
      if fate.Done? {
        fate := Quiet(); // close
      }
      if fate.Done? {
        fate := Quiet(); // secure
      }
      if fate.Done? {
        fate := Quiet(); // adopt
      }
      if fate.Done? {
        fate := Rename(tmp, KEY_FILE, encoded);
      }
      if fate.Died? {
        return Dead;
      }
      ending := if fate.Done? then Returned(made) else Errored;
      fate := RemoveTemp(tmp);
      if fate.Died? {
        ending := Dead;
      }
    }
  }

  // ── over any number of runs ────────────────────────────────────────────────

  /** One operation of some run, with the named files before and after it. A run that dies is followed
      by the next run's first operation. */
  datatype Event =
    | Saved(before: Files, after: Files, name: string, data: string, done: Ending<()>)
    | Loaded(before: Files, after: Files, made: Key, key: Ending<Key>)

  ghost predicate Happens(format: KeyFormat, e: Event) {
    match e
    case Saved(before, after, name, data, done) =>
      (name == CONFIG_FILE || name == LAST_RUN_FILE) && Saves(before, after, name, data, done)
    case Loaded(before, after, made, key) => LoadsKey(format, before, after, made, key)
  }

  ghost predicate History(format: KeyFormat, events: seq<Event>) {
    && (forall i :: 0 <= i < |events| ==> Happens(format, events[i]))
    && (forall i :: 0 <= i < |events| - 1 ==> events[i].after == events[i + 1].before)
  }

  /** Once the key file is there it never changes. */
  lemma {:induction false} KeyFileStays(format: KeyFormat, events: seq<Event>, i: nat, j: nat)
    requires History(format, events) && i <= j < |events|
    requires KEY_FILE in events[i].after
    ensures KEY_FILE in events[j].after && events[j].after[KEY_FILE] == events[i].after[KEY_FILE]
    decreases j
  {
    if i < j {
      KeyFileStays(format, events, i, j - 1);
      assert events[j - 1].after == events[j - 1 + 1].before;
      assert Happens(format, events[j]);
      assert KEY_FILE != CONFIG_FILE && KEY_FILE != LAST_RUN_FILE;
    }
  }

  /** The agent's identity is stable: once any run has returned a key, every later load that succeeds
      returns that same key, whatever died in between. */
  lemma KeyIsStable(format: KeyFormat, events: seq<Event>, i: nat, j: nat)
    requires format.RoundTrips() && History(format, events)
    requires i < j < |events|
    requires events[i].Loaded? && events[i].key.Returned?
    requires events[j].Loaded? && events[j].key.Returned?
    ensures events[j].key.value == events[i].key.value
  {
    assert Happens(format, events[i]) && Happens(format, events[j]);
    KeyFileStays(format, events, i, j - 1);
    assert events[j - 1].after == events[j - 1 + 1].before;
    assert format.parse(format.encode(events[i].made)) == Some(events[i].made);
  }

  /** The contents a save of this file could have put there, from event i on. */
  ghost predicate WrittenSince(events: seq<Event>, i: nat, j: nat, name: string, data: string) {
    exists k :: i <= k <= j < |events| && events[k].Saved? && events[k].name == name && events[k].data == data
  }

  /** Whatever died or failed, before any save succeeded or after: every file but the key holds, whole,
      what it held at first or what some save of it wrote, and is missing only if it always was. */
  lemma {:induction false} EveryFileIsWhole(format: KeyFormat, events: seq<Event>, j: nat, name: string)
    requires History(format, events) && j < |events| && name != KEY_FILE
    ensures var first, last := events[0].before, events[j].after;
      && (name in last ==>
            || (name in first && last[name] == first[name])
            || WrittenSince(events, 0, j, name, last[name]))
      && (name !in last ==> name !in first)
  {
    assert Happens(format, events[j]);
    if j > 0 {
      EveryFileIsWhole(format, events, j - 1, name);
      assert events[j - 1].after == events[j - 1 + 1].before;
    }
    var before, after := events[j].before, events[j].after;
    if name in after {
      if name in before && after[name] == before[name] {
        if j > 0 && WrittenSince(events, 0, j - 1, name, before[name]) {
          var k :| 0 <= k <= j - 1 && events[k].Saved? && events[k].name == name && events[k].data == before[name];
          assert events[k].data == after[name];
        }
      } else {
        assert events[j].Saved? && events[j].name == name && events[j].data == after[name];
      }
    }
  }

  /** After a save that succeeded, the file always holds, whole, what it or some later save wrote. */
  lemma {:induction false} SavedFileIsWhole(format: KeyFormat, events: seq<Event>, i: nat, j: nat)
    requires History(format, events) && i <= j < |events|
    requires events[i].Saved? && events[i].done.Returned?
    ensures var name := events[i].name;
      name in events[j].after && WrittenSince(events, i, j, name, events[j].after[name])
    decreases j
  {
    var name := events[i].name;
    assert Happens(format, events[i]);
    if i == j {
      assert events[i].data == events[j].after[name];
    } else {
      SavedFileIsWhole(format, events, i, j - 1);
      assert events[j - 1].after == events[j - 1 + 1].before;
      assert Happens(format, events[j]);
      assert KEY_FILE != CONFIG_FILE && KEY_FILE != LAST_RUN_FILE;
      var held := events[j - 1].after[name];
      var k :| i <= k <= j - 1 && events[k].Saved? && events[k].name == name && events[k].data == held;
      if events[j].after[name] == held {
        assert events[k].data == events[j].after[name];
      } else {
        assert events[j].Saved? && events[j].name == name && events[j].data == events[j].after[name];
      }
    }
  }
}
