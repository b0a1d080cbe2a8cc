/** Values shared by every part of the supervisor: configured process
    records, the running-process snapshot, and the settings object. */
module Records {

  datatype Option<T> = None | Some(value: T)

  /** One `name: path` entry of a configured process dict. */
  datatype ProcessRecord = ProcessRecord(name: string, path: string)

  /** One item of the configured `processes` list: a dict of `name -> path`,
      kept as a sequence because dict iteration follows insertion order. */
  type ConfigItem = seq<ProcessRecord>

  /** One `(pid, exe)` pair of the running-process snapshot. */
  datatype RunningProcess = RunningProcess(pid: int, exe: string)

  /** The loaded settings. Only the `processes` list is changed after loading
      (by the startup reconciliation); the message header and footer are read
      by the e-mail handler. */
  class Settings {
    var processes: seq<ConfigItem>
    const messageStart: string
    const messageEnd: string

    constructor (processes: seq<ConfigItem>, messageStart: string, messageEnd: string)
      ensures this.processes == processes
      ensures this.messageStart == messageStart && this.messageEnd == messageEnd
    {
      this.processes := processes;
      this.messageStart := messageStart;
      this.messageEnd := messageEnd;
    }
  }

  /** All `(name, path)` entries of a list of config items, item by item and,
      inside an item, in dict order. */
  function Entries(items: seq<ConfigItem>): (es: seq<ProcessRecord>)
  {
    if items == [] then [] else items[0] + Entries(items[1..])
  }

  /** An entry is listed exactly when some item holds it. */
  lemma {:induction false} EntriesMembers(items: seq<ConfigItem>)
    ensures forall r :: r in Entries(items) <==> exists i :: 0 <= i < |items| && r in items[i]
  {
    if items != [] {
      EntriesMembers(items[1..]);
      forall r | r in Entries(items[1..]) ensures exists i :: 1 <= i < |items| && r in items[i] {
        var j :| 0 <= j < |items[1..]| && r in items[1..][j];
        assert r in items[j + 1];
      }
      forall r, i | 1 <= i < |items| && r in items[i] ensures r in Entries(items[1..]) {
        assert r in items[1..][i - 1];
      }
    }
  }

  /** Each entry as a dict of its own, `{name: path}`. */
  function Singletons(rs: seq<ProcessRecord>): (items: seq<ConfigItem>)
  {
    seq(|rs|, i requires 0 <= i < |rs| => [rs[i]])
  }

  /** The names of an item's entries, in dict order. */
  function Names(item: ConfigItem): (names: seq<string>)
  {
    seq(|item|, i requires 0 <= i < |item| => item[i].name)
  }

  lemma {:induction false} EntriesAppend(a: seq<ConfigItem>, b: seq<ConfigItem>)
    ensures Entries(a + b) == Entries(a) + Entries(b)
  {
    if a == [] {
      assert a + b == b;
    } else {
      assert (a + b)[1..] == a[1..] + b;
      EntriesAppend(a[1..], b);
    }
  }

  lemma EntriesPrefix(items: seq<ConfigItem>, k: nat)
    requires k < |items|
    ensures Entries(items[..k + 1]) == Entries(items[..k]) + items[k]
  {
    assert items[..k + 1] == items[..k] + [items[k]];
    EntriesAppend(items[..k], [items[k]]);
    assert [items[k]][1..] == [];
  }

  /** Splitting entries into singleton dicts loses and reorders nothing. */
  lemma {:induction false} EntriesOfSingletons(rs: seq<ProcessRecord>)
    ensures Entries(Singletons(rs)) == rs
  {
    if rs != [] {
      assert Singletons(rs)[1..] == Singletons(rs[1..]);
      EntriesOfSingletons(rs[1..]);
    }
  }

  lemma SingletonsAppend(a: seq<ProcessRecord>, b: seq<ProcessRecord>)
    ensures Singletons(a + b) == Singletons(a) + Singletons(b)
  {
  }

  lemma NamesPrefix(item: ConfigItem, j: nat)
    requires j < |item|
    ensures Names(item[..j + 1]) == Names(item[..j]) + [item[j].name]
  {
  }
}
