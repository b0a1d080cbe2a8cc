/** What the startup reconciliation computes, as functions of the configured
    entries and the running-process snapshot: which entries are adopted (and
    with which pid) and which stay pending for a fresh launch. */
module Reconciliation {
  import opened Records

  /** An entry bound to an already running process. */
  datatype Adoption = Adoption(record: ProcessRecord, pid: int)

  /** Some running process executes `path`. */
  ghost predicate IsRunning(procs: seq<RunningProcess>, path: string)
  {
    exists i :: 0 <= i < |procs| && procs[i].exe == path
  }

  /** `i` is the first position of the snapshot whose exe is `path`. */
  ghost predicate IsFirstMatch(procs: seq<RunningProcess>, path: string, i: int)
  {
    && 0 <= i < |procs|
    && procs[i].exe == path
    && forall j :: 0 <= j < i ==> procs[j].exe != path
  }

  /** The running processes whose exe is `path`, in snapshot order. */
  function Matches(procs: seq<RunningProcess>, path: string): (m: seq<RunningProcess>)
  {
    if procs == [] then []
    else if procs[0].exe == path then [procs[0]] + Matches(procs[1..], path)
    else Matches(procs[1..], path)
  }

  /** The pid an entry with this path is adopted with: that of the first
      running process whose exe equals the path, or none. */
  function FirstMatch(procs: seq<RunningProcess>, path: string): (pid: Option<int>)
  {
    var m := Matches(procs, path);
    if m != [] then Some(m[0].pid) else None
  }

  /** The filter keeps exactly the processes running `path`, and the first
      one it keeps is the first such process of the snapshot. */
  lemma {:induction false} MatchesFilter(procs: seq<RunningProcess>, path: string)
    ensures forall p :: p in Matches(procs, path) <==> p in procs && p.exe == path
    ensures Matches(procs, path) != [] ==>
              exists i :: IsFirstMatch(procs, path, i) && procs[i] == Matches(procs, path)[0]
  {
    if procs != [] {
      MatchesFilter(procs[1..], path);
      assert procs == [procs[0]] + procs[1..];
      var rest := Matches(procs[1..], path);
      if procs[0].exe == path {
        assert IsFirstMatch(procs, path, 0);
      } else if rest != [] {
        var k :| IsFirstMatch(procs[1..], path, k) && procs[1..][k] == rest[0];
        assert IsFirstMatch(procs, path, k + 1);
      }
    }
  }

  /** An entry is adopted exactly when some running process executes its
      path, and then with the pid of the first such process. */
  lemma FirstMatchSpec(procs: seq<RunningProcess>, path: string)
    ensures FirstMatch(procs, path).None? <==> !IsRunning(procs, path)
    ensures FirstMatch(procs, path).Some? ==>
              exists i :: IsFirstMatch(procs, path, i) && procs[i].pid == FirstMatch(procs, path).value
  {
    MatchesFilter(procs, path);
    var m := Matches(procs, path);
    if IsRunning(procs, path) {
      var i :| 0 <= i < |procs| && procs[i].exe == path;
      assert procs[i] in m;
    }
  }

  /** The entries no running process matches, in configuration order. */
  function Unmatched(es: seq<ProcessRecord>, procs: seq<RunningProcess>): (pending: seq<ProcessRecord>)
  {
    if es == [] then []
    else if FirstMatch(procs, es[0].path).None? then [es[0]] + Unmatched(es[1..], procs)
    else Unmatched(es[1..], procs)
  }

  /** The entries that are adopted, each with the pid it is bound to, in
      configuration order. */
  function Adoptions(es: seq<ProcessRecord>, procs: seq<RunningProcess>): (bindings: seq<Adoption>)
  {
    if es == [] then []
    else match FirstMatch(procs, es[0].path)
      case Some(pid) => [Adoption(es[0], pid)] + Adoptions(es[1..], procs)
      case None => Adoptions(es[1..], procs)
  }

  /** An entry is pending exactly when it is configured and no running
      process executes its path. */
  lemma {:induction false} UnmatchedMembers(es: seq<ProcessRecord>, procs: seq<RunningProcess>)
    ensures forall r :: r in Unmatched(es, procs) <==> r in es && !IsRunning(procs, r.path)
  {
    if es != [] {
      UnmatchedMembers(es[1..], procs);
      FirstMatchSpec(procs, es[0].path);
      assert es == [es[0]] + es[1..];
    }
  }

  /** An entry is adopted with `pid` exactly when it is configured and `pid`
      is that of the first running process executing its path. */
  lemma {:induction false} AdoptionsMembers(es: seq<ProcessRecord>, procs: seq<RunningProcess>)
    ensures forall x :: x in Adoptions(es, procs) <==> x.record in es && FirstMatch(procs, x.record.path) == Some(x.pid)
  {
    if es != [] {
      AdoptionsMembers(es[1..], procs);
      assert es == [es[0]] + es[1..];
    }
  }

  /** Classifying a concatenation classifies each part in turn, so both
      outcomes keep configuration order. */
  lemma {:induction false} UnmatchedAppend(a: seq<ProcessRecord>, b: seq<ProcessRecord>, procs: seq<RunningProcess>)
    ensures Unmatched(a + b, procs) == Unmatched(a, procs) + Unmatched(b, procs)
  {
    if a == [] {
      assert a + b == b;
    } else {
      assert (a + b)[1..] == a[1..] + b;
      UnmatchedAppend(a[1..], b, procs);
    }
  }

  lemma {:induction false} AdoptionsAppend(a: seq<ProcessRecord>, b: seq<ProcessRecord>, procs: seq<RunningProcess>)
    ensures Adoptions(a + b, procs) == Adoptions(a, procs) + Adoptions(b, procs)
  {
    if a == [] {
      assert a + b == b;
    } else {
      assert (a + b)[1..] == a[1..] + b;
      AdoptionsAppend(a[1..], b, procs);
    }
  }

  function AdoptedRecords(a: seq<Adoption>): (rs: seq<ProcessRecord>)
  {
    if a == [] then [] else [a[0].record] + AdoptedRecords(a[1..])
  }

  /** Every configured entry ends up in exactly one place, pending or
      adopted: none is lost and none is duplicated. */
  lemma {:induction false} Conservation(es: seq<ProcessRecord>, procs: seq<RunningProcess>)
    ensures multiset(es) == multiset(Unmatched(es, procs)) + multiset(AdoptedRecords(Adoptions(es, procs)))
  {
    if es != [] {
      var r, tl := es[0], es[1..];
      Conservation(tl, procs);
      assert es == [r] + tl;
      match FirstMatch(procs, r.path)
      case Some(pid) =>
        assert AdoptedRecords(Adoptions(es, procs)) == [r] + AdoptedRecords(Adoptions(tl, procs));
      case None =>
        assert Unmatched(es, procs) == [r] + Unmatched(tl, procs);
    }
  }

  /** No entry is both pending and adopted. */
  lemma NeverBoth(es: seq<ProcessRecord>, procs: seq<RunningProcess>)
    ensures forall r :: r in Unmatched(es, procs) ==> r !in AdoptedRecords(Adoptions(es, procs))
  {
    UnmatchedMembers(es, procs);
    AdoptedAreRunning(es, procs);
  }

  lemma {:induction false} AdoptedAreRunning(es: seq<ProcessRecord>, procs: seq<RunningProcess>)
    ensures forall r :: r in AdoptedRecords(Adoptions(es, procs)) ==> IsRunning(procs, r.path)
  {
    if es != [] {
      AdoptedAreRunning(es[1..], procs);
      FirstMatchSpec(procs, es[0].path);
    }
  }

  /** Entries with the same path are bound to the same pid, even when they
      carry different names. */
  lemma SamePathSamePid(es: seq<ProcessRecord>, procs: seq<RunningProcess>, i: nat, j: nat)
    requires i < |Adoptions(es, procs)| && j < |Adoptions(es, procs)|
    requires Adoptions(es, procs)[i].record.path == Adoptions(es, procs)[j].record.path
    ensures Adoptions(es, procs)[i].pid == Adoptions(es, procs)[j].pid
  {
    var a := Adoptions(es, procs);
    AdoptionsMembers(es, procs);
    assert a[i] in a && a[j] in a;
  }

  /** With nothing running, every entry stays pending; with every path
      running, none does. */
  lemma {:induction false} UnmatchedExtremes(es: seq<ProcessRecord>, procs: seq<RunningProcess>)
    ensures (forall k :: 0 <= k < |es| ==> !IsRunning(procs, es[k].path)) ==> Unmatched(es, procs) == es
    ensures (forall k :: 0 <= k < |es| ==> IsRunning(procs, es[k].path)) ==> Unmatched(es, procs) == []
  {
    if es != [] {
      UnmatchedExtremes(es[1..], procs);
      FirstMatchSpec(procs, es[0].path);
      assert forall k :: 1 <= k < |es| ==> es[1..][k - 1] == es[k];
    }
  }
}
