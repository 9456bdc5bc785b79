/**
 * The reductions shared by every copy of the check and status code: the
 * state of one record, the fold of a record stream into one state per
 * reporter, and the collapse of those states into one answer.
 *
 * A state is Python's `True` / `False` / `None`, written `Some(true)`,
 * `Some(false)` and `None`.
 */
module Signals {
  import opened Wrappers

  type Tri = Option<bool>

  /** A check run as the check-runs endpoint reports it. */
  datatype CheckRun = CheckRun(name: string, status: string, conclusion: string)

  /** A commit status; `updatedAt` is its `updated_at` time on an integer clock. */
  datatype Status = Status(context: string, state: string, updatedAt: int)

  /** One check record reduced to the key it is filed under and its state. */
  datatype Entry = Entry(key: string, verdict: Tri)

  /** The state of one check: not completed is pending, a bad conclusion fails, any other passes. */
  function CheckVerdict(status: string, conclusion: string, bad: seq<string>): Tri
  {
    if status != "completed" then None
    else if conclusion in bad then Some(false)
    else Some(true)
  }

  /** The state of one status: a neutral state is pending, a bad state fails, any other passes. */
  function StatusVerdict(state: string, neutral: seq<string>, bad: seq<string>): Tri
  {
    if state in neutral then None
    else if state in bad then Some(false)
    else Some(true)
  }

  /** Python's `all(v for v in m.values())` over states: only `True` is truthy. */
  predicate AllPass(m: map<string, Tri>)
  {
    forall k | k in m :: m[k] == Some(true)
  }

  /** No data gives `None`; any pending or failing reporter gives `False`; otherwise `True`. */
  function Collapse(m: map<string, Tri>): Tri
  {
    if |m| == 0 then None
    else if !AllPass(m) then Some(false)
    else Some(true)
  }

  // ---------------------------------------------------------------------------
  // Checks: the last record seen for a key overwrites whatever came before.
  // ---------------------------------------------------------------------------

  /** The dictionary the check loop builds from `es`, skipping keys in `ignored`. */
  function LastWins(es: seq<Entry>, ignored: seq<string>): map<string, Tri>
  {
    if es == [] then map[]
    else
      var m := LastWins(es[..|es| - 1], ignored);
      var e := es[|es| - 1];
      if e.key in ignored then m else m[e.key := e.verdict]
  }

  /** No later record in `es` carries the key of record `j`. */
  ghost predicate IsLast(es: seq<Entry>, j: int)
  {
    0 <= j < |es| && forall i | j < i < |es| :: es[i].key != es[j].key
  }

  /**
   * The reference meaning of a passing check stream: some record is not
   * ignored, and every non-ignored record that is the last for its key passes.
   */
  ghost predicate AllLastPass(es: seq<Entry>, ignored: seq<string>)
  {
    && (exists i | 0 <= i < |es| :: es[i].key !in ignored)
    && forall j | 0 <= j < |es| && es[j].key !in ignored && IsLast(es, j) :: es[j].verdict == Some(true)
  }

  /** A key is in the dictionary exactly when some record carries it and it is not ignored. */
  lemma {:induction false} LastWinsKeys(es: seq<Entry>, ignored: seq<string>, k: string)
    ensures k in LastWins(es, ignored) <==> k !in ignored && exists i | 0 <= i < |es| :: es[i].key == k
  {
    if es != [] {
      var p := es[..|es| - 1];
      LastWinsKeys(p, ignored, k);
      if exists i | 0 <= i < |es| :: es[i].key == k {
        var i :| 0 <= i < |es| && es[i].key == k;
        if i < |es| - 1 {
          assert p[i].key == k;
        }
      }
      if exists i | 0 <= i < |p| :: p[i].key == k {
        var i :| 0 <= i < |p| && p[i].key == k;
        assert es[i].key == k;
      }
    }
  }

  /** Last writer wins: the record last seen for a key decides its state, whatever came before. */
  lemma {:induction false} LastWinsValue(es: seq<Entry>, ignored: seq<string>, j: int)
    requires IsLast(es, j) && es[j].key !in ignored
    ensures es[j].key in LastWins(es, ignored)
    ensures LastWins(es, ignored)[es[j].key] == es[j].verdict
  {
    var p := es[..|es| - 1];
    if j < |es| - 1 {
      assert IsLast(p, j) by {
        forall i | j < i < |p| ensures p[i].key != p[j].key {
          assert p[i] == es[i];
        }
      }
      LastWinsValue(p, ignored, j);
    }
  }

  /** Every record has a last record with the same key at or after it. */
  lemma {:induction false} LastExists(es: seq<Entry>, i: int)
    requires 0 <= i < |es|
    ensures exists j | i <= j < |es| :: es[j].key == es[i].key && IsLast(es, j)
    decreases |es| - i
  {
    if !IsLast(es, i) {
      var i' :| i < i' < |es| && es[i'].key == es[i].key;
      LastExists(es, i');
    }
  }

  /**
   * The check result is `None` exactly when every record is ignored, and
   * `True` exactly when the reference meaning holds; a pending last record
   * therefore gives `False`, never `None`.
   */
  lemma CollapseLastWins(es: seq<Entry>, ignored: seq<string>)
    ensures Collapse(LastWins(es, ignored)) == None <==> forall i | 0 <= i < |es| :: es[i].key in ignored
    ensures Collapse(LastWins(es, ignored)) == Some(true) <==> AllLastPass(es, ignored)
  {
    var m := LastWins(es, ignored);
    if exists i | 0 <= i < |es| :: es[i].key !in ignored {
      var i :| 0 <= i < |es| && es[i].key !in ignored;
      LastWinsKeys(es, ignored, es[i].key);
      assert es[i].key in m;
    } else {
      forall k ensures k !in m {
        LastWinsKeys(es, ignored, k);
      }
      assert m == map[];
    }
    if AllPass(m) {
      forall j | 0 <= j < |es| && es[j].key !in ignored && IsLast(es, j)
        ensures es[j].verdict == Some(true)
      {
        LastWinsValue(es, ignored, j);
      }
    }
    if AllLastPass(es, ignored) {
      forall k | k in m ensures m[k] == Some(true) {
        LastWinsKeys(es, ignored, k);
        var i :| 0 <= i < |es| && es[i].key == k;
        LastExists(es, i);
        var j :| i <= j < |es| && es[j].key == k && IsLast(es, j);
        LastWinsValue(es, ignored, j);
      }
    }
  }

  // ---------------------------------------------------------------------------
  // Statuses: a record replaces the kept one only with a strictly later time.
  // ---------------------------------------------------------------------------

  /** What the status code consults: contexts to skip, the state lists and the initial time. */
  datatype StatusPolicy = StatusPolicy(ignored: seq<string>, neutral: seq<string>, bad: seq<string>, floor: int)

  function Reduce(s: Status, pol: StatusPolicy): Tri
  {
    StatusVerdict(s.state, pol.neutral, pol.bad)
  }

  /**
   * The dictionary the status loop builds: a new context starts as
   * `(None, floor)`, and a record overwrites the kept pair only when its time
   * is strictly greater than the kept time.
   */
  function StatusStates(ss: seq<Status>, pol: StatusPolicy): map<string, (Tri, int)>
  {
    if ss == [] then map[]
    else
      var m := StatusStates(ss[..|ss| - 1], pol);
      var s := ss[|ss| - 1];
      if s.context in pol.ignored then m
      else
        var m' := if s.context !in m then m[s.context := (None, pol.floor)] else m;
        if s.updatedAt > m'[s.context].1 then m'[s.context := (Reduce(s, pol), s.updatedAt)]
        else m'
  }

  /** The first components of the kept pairs. */
  function Verdicts(m: map<string, (Tri, int)>): map<string, Tri>
  {
    map k | k in m :: m[k].0
  }

  /**
   * Record `j` is the authoritative one for its context: it is not ignored,
   * is later than the initial time, every earlier record of its context is
   * strictly older and no later one is newer.
   */
  ghost predicate Authoritative(ss: seq<Status>, pol: StatusPolicy, j: int)
  {
    && 0 <= j < |ss|
    && ss[j].context !in pol.ignored
    && ss[j].updatedAt > pol.floor
    && (forall i | 0 <= i < j && ss[i].context == ss[j].context :: ss[i].updatedAt < ss[j].updatedAt)
    && (forall i | j < i < |ss| && ss[i].context == ss[j].context :: ss[i].updatedAt <= ss[j].updatedAt)
  }

  /** Context `k` has an authoritative record and that record passes. */
  ghost predicate ContextPasses(ss: seq<Status>, pol: StatusPolicy, k: string)
  {
    exists j | 0 <= j < |ss| && ss[j].context == k :: Authoritative(ss, pol, j) && Reduce(ss[j], pol) == Some(true)
  }

  /** The reference meaning of passing statuses: some context counts, and every counted context passes. */
  ghost predicate AllContextsPass(ss: seq<Status>, pol: StatusPolicy)
  {
    && (exists i | 0 <= i < |ss| :: ss[i].context !in pol.ignored)
    && forall i | 0 <= i < |ss| && ss[i].context !in pol.ignored :: ContextPasses(ss, pol, ss[i].context)
  }

  /** A context is kept exactly when some record has it and it is not ignored. */
  lemma {:induction false} StatusKeys(ss: seq<Status>, pol: StatusPolicy, k: string)
    ensures k in StatusStates(ss, pol) <==> k !in pol.ignored && exists i | 0 <= i < |ss| :: ss[i].context == k
  {
    if ss != [] {
      var p := ss[..|ss| - 1];
      StatusKeys(p, pol, k);
      if exists i | 0 <= i < |ss| :: ss[i].context == k {
        var i :| 0 <= i < |ss| && ss[i].context == k;
        if i < |ss| - 1 {
          assert p[i].context == k;
        }
      }
      if exists i | 0 <= i < |p| :: p[i].context == k {
        var i :| 0 <= i < |p| && p[i].context == k;
        assert ss[i].context == k;
      }
    }
  }

  /**
   * The kept time is the initial time or later, and no record of the context
   * is newer; a pair still at the initial time holds `None`.
   */
  lemma {:induction false} StatusBounds(ss: seq<Status>, pol: StatusPolicy, k: string)
    requires k in StatusStates(ss, pol)
    ensures StatusStates(ss, pol)[k].1 >= pol.floor
    ensures StatusStates(ss, pol)[k].1 == pol.floor ==> StatusStates(ss, pol)[k].0 == None
    ensures forall i | 0 <= i < |ss| && ss[i].context == k :: ss[i].updatedAt <= StatusStates(ss, pol)[k].1
  {
    var n := |ss| - 1;
    var p, s := ss[..n], ss[n];
    var m0 := StatusStates(p, pol);
    var m := StatusStates(ss, pol);
    assert forall i | 0 <= i < n :: ss[i] == p[i];
    StatusKeys(ss, pol, k);
    StatusKeys(p, pol, k);
    if s.context in pol.ignored || s.context != k {
      StatusBounds(p, pol, k);
    } else if k in m0 {
      StatusBounds(p, pol, k);
    }
  }

  /** The kept pair of a context, once past the initial time, is that of an authoritative record. */
  lemma {:induction false} StatusWitness(ss: seq<Status>, pol: StatusPolicy, k: string)
    requires k in StatusStates(ss, pol) && StatusStates(ss, pol)[k].1 > pol.floor
    ensures exists j | 0 <= j < |ss| && ss[j].context == k ::
              Authoritative(ss, pol, j) && StatusStates(ss, pol)[k] == (Reduce(ss[j], pol), ss[j].updatedAt)
  {
    var n := |ss| - 1;
    var p, s := ss[..n], ss[n];
    var m0 := StatusStates(p, pol);
    var m := StatusStates(ss, pol);
    assert forall i | 0 <= i < n :: ss[i] == p[i];
    StatusKeys(p, pol, k);
    if s.context in pol.ignored || s.context != k {
      StatusWitness(p, pol, k);
      var j :| 0 <= j < |p| && p[j].context == k && Authoritative(p, pol, j) && m0[k] == (Reduce(p[j], pol), p[j].updatedAt);
      assert Authoritative(ss, pol, j);
    } else if m[k] == (Reduce(s, pol), s.updatedAt) && (k !in m0 || s.updatedAt > m0[k].1) {
      if k in m0 {
        StatusBounds(p, pol, k);
      }
      assert Authoritative(ss, pol, n);
    } else {
      StatusWitness(p, pol, k);
      var j :| 0 <= j < |p| && p[j].context == k && Authoritative(p, pol, j) && m0[k] == (Reduce(p[j], pol), p[j].updatedAt);
      assert Authoritative(ss, pol, j);
    }
  }

  /** Strictly-latest wins: the authoritative record decides its context's kept pair. */
  lemma {:induction false} StatusAuthoritative(ss: seq<Status>, pol: StatusPolicy, j: int)
    requires Authoritative(ss, pol, j)
    ensures ss[j].context in StatusStates(ss, pol)
    ensures StatusStates(ss, pol)[ss[j].context] == (Reduce(ss[j], pol), ss[j].updatedAt)
  {
    var k := ss[j].context;
    var n := |ss| - 1;
    var p, s := ss[..n], ss[n];
    var m0 := StatusStates(p, pol);
    assert forall i | 0 <= i < n :: ss[i] == p[i];
    StatusKeys(ss, pol, k);
    if j < n {
      assert Authoritative(p, pol, j);
      StatusAuthoritative(p, pol, j);
    } else if k in m0 {
      StatusBounds(p, pol, k);
      if m0[k].1 > pol.floor {
        StatusWitness(p, pol, k);
      }
    }
  }

  /**
   * The status result is `None` exactly when every record is ignored, and
   * `True` exactly when every counted context has a passing authoritative
   * record; a context whose records are all at or before the initial time
   * keeps `None` and so blocks.
   */
  lemma CollapseStatuses(ss: seq<Status>, pol: StatusPolicy)
    ensures Collapse(Verdicts(StatusStates(ss, pol))) == None <==> forall i | 0 <= i < |ss| :: ss[i].context in pol.ignored
    ensures Collapse(Verdicts(StatusStates(ss, pol))) == Some(true) <==> AllContextsPass(ss, pol)
  {
    var m := StatusStates(ss, pol);
    var v := Verdicts(m);
    if exists i | 0 <= i < |ss| :: ss[i].context !in pol.ignored {
      var i :| 0 <= i < |ss| && ss[i].context !in pol.ignored;
      StatusKeys(ss, pol, ss[i].context);
      assert ss[i].context in v;
    } else {
      forall k ensures k !in v {
        StatusKeys(ss, pol, k);
      }
      assert v == map[];
    }
    if AllPass(v) {
      forall i | 0 <= i < |ss| && ss[i].context !in pol.ignored
        ensures ContextPasses(ss, pol, ss[i].context)
      {
        var k := ss[i].context;
        StatusKeys(ss, pol, k);
        assert v[k] == Some(true);
        StatusBounds(ss, pol, k);
        StatusWitness(ss, pol, k);
      }
    }
    if AllContextsPass(ss, pol) {
      forall k | k in v ensures v[k] == Some(true) {
        StatusKeys(ss, pol, k);
        var i :| 0 <= i < |ss| && ss[i].context == k;
        assert ContextPasses(ss, pol, k);
        var j :| 0 <= j < |ss| && ss[j].context == k && Authoritative(ss, pol, j) && Reduce(ss[j], pol) == Some(true);
        StatusAuthoritative(ss, pol, j);
      }
    }
  }
}
