/**
 * Round-robin selection with failover (getNextAvailableServer): starting at a
 * service's cursor, try at most N candidates in list order, wrapping around;
 * advance the cursor by one modulo N before each liveness probe, and return
 * the first candidate whose probe succeeds, or None once all N have failed.
 *
 * The liveness probe is the oracle `isUp`; the HTTP health call is not modelled.
 */
module Selector {
  import opened Wrappers
  import opened Registry

  /** A cursor is usable for a list of n endpoints. An empty list never reads its cursor. */
  predicate InRange(cursor: nat, n: nat) {
    cursor < n || n == 0
  }

  /** Every registered service has a cursor in range for its list. */
  predicate CursorsFit(table: Table, cursors: Cursors) {
    forall name :: name in table ==> name in cursors && InRange(cursors[name], |table[name]|)
  }

  /** Where a cursor stands after `steps` advances by one modulo n (an empty list never advances). */
  function Advance(cursor: nat, steps: nat, n: nat): nat {
    if n == 0 then cursor else (cursor + steps) % n
  }

  /** The candidate `j` positions after `start`, wrapping around the list. */
  function At(servers: seq<Endpoint>, start: nat, j: nat): Endpoint
    requires |servers| > 0
  {
    servers[(start + j) % |servers|]
  }

  /** The first `count` candidates in probing order. */
  function Candidates(servers: seq<Endpoint>, start: nat, count: nat): (r: seq<Endpoint>)
    requires |servers| > 0 || count == 0
    ensures |r| == count
    ensures forall j :: 0 <= j < count ==> r[j] == At(servers, start, j)
  {
    if count == 0 then [] else Candidates(servers, start, count - 1) + [At(servers, start, count - 1)]
  }

  /**
   * The offset of the first candidate, at offset `from` or later, whose probe
   * succeeds; |servers| when none does.
   */
  function FirstUp(servers: seq<Endpoint>, start: nat, isUp: Endpoint -> bool, from: nat): (k: nat)
    requires from <= |servers|
    ensures from <= k <= |servers|
    ensures k < |servers| ==> isUp(At(servers, start, k))
    ensures forall j :: from <= j < k ==> !isUp(At(servers, start, j))
    decreases |servers| - from
  {
    if from == |servers| then from
    else if isUp(At(servers, start, from)) then from
    else FirstUp(servers, start, isUp, from + 1)
  }

  /** What one call of the selector does: the endpoint it returns, the cursor it leaves, the candidates it probed. */
  datatype Selection = Selection(server: Option<Endpoint>, cursor: nat, probed: seq<Endpoint>)

  /**
   * One selection from cursor `start`: candidates are probed in order until
   * one is up; every probe advances the cursor by one.
   */
  function Select(servers: seq<Endpoint>, start: nat, isUp: Endpoint -> bool): (s: Selection)
    ensures |s.probed| <= |servers|
    ensures s.server.Some? ==> |s.probed| > 0 && s.server.value == s.probed[|s.probed| - 1]
    ensures s.server.None? ==> |s.probed| == |servers|
  {
    var n := |servers|;
    var k := FirstUp(servers, start, isUp, 0);
    if k < n then
      Selection(Some(At(servers, start, k)), Advance(start, k + 1, n), Candidates(servers, start, k + 1))
    else
      Selection(None, Advance(start, n, n), Candidates(servers, start, n))
  }

  // ---------------------------------------------------------------------------
  // Modular arithmetic used by the lemmas below

  lemma MulZero(n: int, d: int)
    requires n > 0 && -n < n * d < n
    ensures d == 0
  {
  }

  /** Division with remainder is unique. */
  lemma ModUnique(a: int, n: int, q: int, r: int)
    requires n > 0 && 0 <= r < n && a == n * q + r
    ensures a % n == r
  {
    var q', r' := a / n, a % n;
    assert n * (q - q') == r' - r;
    MulZero(n, q - q');
  }

  lemma ModBelow(x: nat, n: nat)
    requires x < n
    ensures x % n == x
  {
  }

  lemma ModWrapOnce(x: nat, n: nat)
    requires n <= x < 2 * n
    ensures x % n == x - n
  {
    assert x == n + (x - n);
  }

  /** Advancing a cursor one more step is the source's `(index + 1) % totalServers`. */
  lemma AdvanceStep(start: nat, i: nat, n: nat)
    requires n > 0
    ensures (Advance(start, i, n) + 1) % n == Advance(start, i + 1, n)
  {
    var a := start + i;
    var q, r := a / n, a % n;
    if r + 1 < n {
      ModUnique(a + 1, n, q, r + 1);
      ModUnique(r + 1, n, 0, r + 1);
    } else {
      ModUnique(a + 1, n, q + 1, 0);
      ModUnique(r + 1, n, 1, 0);
    }
  }

  /** Every position p of the list is reached from `start` within n steps. */
  lemma OffsetOf(start: nat, p: nat, n: nat) returns (j: nat)
    requires start < n && p < n
    ensures j < n && (start + j) % n == p
  {
    if start <= p {
      j := p - start;
      ModBelow(p, n);
    } else {
      j := p + n - start;
      ModWrapOnce(p + n, n);
    }
  }

  // ---------------------------------------------------------------------------
  // Properties of one selection

  /** Cursor bounds: a cursor in range stays in range. */
  lemma SelectCursorInRange(servers: seq<Endpoint>, start: nat, isUp: Endpoint -> bool)
    requires InRange(start, |servers|)
    ensures InRange(Select(servers, start, isUp).cursor, |servers|)
  {
  }

  /** The cursor has advanced exactly once per probe, whatever the probes answered. */
  lemma SelectAdvancesOncePerProbe(servers: seq<Endpoint>, start: nat, isUp: Endpoint -> bool)
    ensures var s := Select(servers, start, isUp);
      |s.probed| <= |servers| && s.cursor == Advance(start, |s.probed|, |servers|)
      && forall j :: 0 <= j < |s.probed| ==> s.probed[j] == At(servers, start, j)
  {
  }

  /** A returned endpoint is one of the service's endpoints, and its probe succeeded; it is the last candidate probed. */
  lemma SelectResultIsLiveMember(servers: seq<Endpoint>, start: nat, isUp: Endpoint -> bool)
    ensures var s := Select(servers, start, isUp);
      s.server.Some? ==>
        (s.server.value in servers && isUp(s.server.value)
         && |s.probed| > 0 && s.probed[|s.probed| - 1] == s.server.value)
  {
  }

  /**
   * If the first successful probe is the k-th candidate, the result is that
   * candidate, the cursor stops one past it, and no later candidate is probed.
   */
  lemma SelectFirstSuccess(servers: seq<Endpoint>, start: nat, isUp: Endpoint -> bool, k: nat)
    requires k < |servers|
    requires isUp(At(servers, start, k))
    requires forall j :: 0 <= j < k ==> !isUp(At(servers, start, j))
    ensures Select(servers, start, isUp)
      == Selection(Some(servers[(start + k) % |servers|]), (start + k + 1) % |servers|, Candidates(servers, start, k + 1))
  {
  }

  /**
   * The selector returns None exactly when no endpoint of the service is up;
   * it then has probed all N candidates and the cursor is back where it started.
   */
  lemma SelectNoneIffAllDown(servers: seq<Endpoint>, start: nat, isUp: Endpoint -> bool)
    requires InRange(start, |servers|)
    ensures var s := Select(servers, start, isUp);
      (s.server.None? <==> forall p :: 0 <= p < |servers| ==> !isUp(servers[p]))
      && (s.server.None? ==> |s.probed| == |servers| && s.cursor == start)
  {
    var n := |servers|;
    var s := Select(servers, start, isUp);
    var k := FirstUp(servers, start, isUp, 0);
    if s.server.None? {
      assert k == n;
      forall p | 0 <= p < n
        ensures !isUp(servers[p])
      {
        var j := OffsetOf(start, p, n);
        assert !isUp(At(servers, start, j));
      }
      if n > 0 {
        ModWrapOnce(start + n, n);
      }
    } else {
      assert isUp(servers[(start + k) % n]);
    }
  }

  /**
   * If exactly one endpoint position p is up, that endpoint is returned
   * wherever it stands, and the cursor ends one past p.
   */
  lemma SelectSingleLive(servers: seq<Endpoint>, start: nat, isUp: Endpoint -> bool, p: nat)
    requires start < |servers| && p < |servers|
    requires isUp(servers[p])
    requires forall q :: 0 <= q < |servers| && q != p ==> !isUp(servers[q])
    ensures Select(servers, start, isUp).server == Some(servers[p])
    ensures Select(servers, start, isUp).cursor == (p + 1) % |servers|
  {
    var n := |servers|;
    var k := OffsetOf(start, p, n);
    forall j | 0 <= j < k
      ensures !isUp(At(servers, start, j))
    {
      SameResidueBelow(start, j, k, n);
    }
    SelectFirstSuccess(servers, start, isUp, k);
    AdvanceSum(start, k, 1, n);
  }

  /** Two offsets below n from the same start land on the same position only if they are equal. */
  lemma SameResidueBelow(start: nat, j: nat, k: nat, n: nat)
    requires start < n && j < k < n
    ensures (start + j) % n != (start + k) % n
  {
    if start + j < n {
      ModBelow(start + j, n);
      if start + k < n { ModBelow(start + k, n); } else { ModWrapOnce(start + k, n); }
    } else {
      ModWrapOnce(start + j, n);
      ModWrapOnce(start + k, n);
    }
  }

  // ---------------------------------------------------------------------------
  // Consecutive selections

  /** The endpoints returned by `count` consecutive selections, each starting where the previous one left the cursor. */
  function Served(servers: seq<Endpoint>, cursor: nat, isUp: Endpoint -> bool, count: nat): (r: seq<Option<Endpoint>>)
    ensures |r| == count
    decreases count
  {
    if count == 0 then []
    else
      var s := Select(servers, cursor, isUp);
      [s.server] + Served(servers, s.cursor, isUp, count - 1)
  }

  /** With every probe succeeding, consecutive selections walk the list in order from the cursor, one position each. */
  lemma {:induction false} AllUpServesInOrder(servers: seq<Endpoint>, cursor: nat, isUp: Endpoint -> bool, count: nat)
    requires cursor < |servers|
    requires forall p :: 0 <= p < |servers| ==> isUp(servers[p])
    ensures forall j :: 0 <= j < count ==> Served(servers, cursor, isUp, count)[j] == Some(At(servers, cursor, j))
    decreases count
  {
    if count > 0 {
      var n := |servers|;
      var s := Select(servers, cursor, isUp);
      SelectFirstSuccess(servers, cursor, isUp, 0);
      ModBelow(cursor, n);
      AdvanceStep(cursor, 0, n);
      AllUpServesInOrder(servers, s.cursor, isUp, count - 1);
      forall j | 1 <= j < count
        ensures Served(servers, cursor, isUp, count)[j] == Some(At(servers, cursor, j))
      {
        AdvanceSum(cursor, 1, j - 1, n);
      }
    }
  }

  /** Taking the position reached after `a` steps and stepping `b` more is stepping `a + b`. */
  lemma AdvanceSum(start: nat, a: nat, b: nat, n: nat)
    requires n > 0
    ensures ((start + a) % n + b) % n == (start + a + b) % n
  {
    var x := start + a;
    var q, r := x / n, x % n;
    var q2, r2 := (r + b) / n, (r + b) % n;
    ModUnique(x + b, n, q + q2, r2);
  }

  /** N candidates from a cursor in range are the list rotated to start at the cursor. */
  lemma CandidatesFullRound(servers: seq<Endpoint>, cursor: nat)
    requires cursor < |servers|
    ensures Candidates(servers, cursor, |servers|) == servers[cursor..] + servers[..cursor]
  {
    var n := |servers|;
    var r := Candidates(servers, cursor, n);
    forall j | 0 <= j < n
      ensures r[j] == (servers[cursor..] + servers[..cursor])[j]
    {
      if cursor + j < n { ModBelow(cursor + j, n); } else { ModWrapOnce(cursor + j, n); }
    }
  }

  /**
   * Cyclic fairness: with every probe succeeding, N consecutive selections
   * return each endpoint exactly once (as a multiset, the list itself), in
   * list order starting from the cursor.
   */
  lemma AllUpRoundIsFair(servers: seq<Endpoint>, cursor: nat, isUp: Endpoint -> bool)
    requires cursor < |servers|
    requires forall p :: 0 <= p < |servers| ==> isUp(servers[p])
    ensures var round := Candidates(servers, cursor, |servers|);
      (forall j :: 0 <= j < |servers| ==> Served(servers, cursor, isUp, |servers|)[j] == Some(round[j]))
      && multiset(round) == multiset(servers)
  {
    AllUpServesInOrder(servers, cursor, isUp, |servers|);
    CandidatesFullRound(servers, cursor);
    RotationSameMultiset(servers, cursor);
  }

  lemma RotationSameMultiset(s: seq<Endpoint>, c: nat)
    requires c <= |s|
    ensures multiset(s[c..] + s[..c]) == multiset(s)
  {
    calc {
      multiset(s[c..] + s[..c]);
      multiset(s[c..]) + multiset(s[..c]);
      multiset(s[..c] + s[c..]);
      { assert s[..c] + s[c..] == s; }
      multiset(s);
    }
  }

  // ---------------------------------------------------------------------------
  // The selector's state: the service table and the shared cursor table

  /** The gateway's routing state; `serviceIndex` is the one table every selection updates in place. */
  class Balancer {
    const services: Table
    var serviceIndex: Cursors

    /** Every registered service has a cursor, and every cursor is in range for its list. */
    ghost predicate Valid()
      reads this
    {
      serviceIndex.Keys == services.Keys && CursorsFit(services, serviceIndex)
    }

    /** The gateway at start-up: every cursor at position 0. */
    constructor (table: Table)
      ensures Valid()
      ensures services == table && serviceIndex == InitialCursors(table)
    {
      services := table;
      serviceIndex := InitialCursors(table);
    }

    /**
     * getNextAvailableServer: probe candidates from the service's cursor,
     * advancing the cursor before each probe, and return the first live one.
     * `probed` records the candidates probed, in order.
     */
    method NextAvailable(name: ServiceName, isUp: Endpoint -> bool) returns (server: Option<Endpoint>, ghost probed: seq<Endpoint>)
      requires Valid() && name in services
      modifies this
      ensures Valid()
      ensures Selection(server, serviceIndex[name], probed) == Select(services[name], old(serviceIndex[name]), isUp)
      ensures serviceIndex == old(serviceIndex)[name := serviceIndex[name]]
    {
      var servers := services[name];
      var total := |servers|;
      ghost var start := serviceIndex[name];
      probed := [];
      var i := 0;
      while i < total
        invariant i <= total && name in serviceIndex
        invariant serviceIndex == old(serviceIndex)[name := serviceIndex[name]]
        invariant Scanned(servers, start, isUp, i, serviceIndex[name], probed)
        invariant Valid()
      {
        var index := serviceIndex[name];
        var target := servers[index];
        ScannedStep(servers, start, isUp, i, index, probed);
        FitAfterMove(services, serviceIndex, name, (index + 1) % total);
        serviceIndex := serviceIndex[name := (index + 1) % total];
        probed := probed + [target];
        if isUp(target) {
          return Some(target), probed;
        }
        i := i + 1;
      }
      ScannedAll(servers, start, isUp, serviceIndex[name], probed);
      return None, probed;
    }
  }

  /**
   * The selector's loop after i failed probes from cursor `start`: the cursor
   * has advanced i times, the first i candidates were probed, and the first
   * live candidate (if any) lies at offset i or later.
   */
  ghost predicate Scanned(servers: seq<Endpoint>, start: nat, isUp: Endpoint -> bool, i: nat, cursor: nat, probed: seq<Endpoint>) {
    i <= |servers| && InRange(start, |servers|)
    && cursor == Advance(start, i, |servers|)
    && probed == Candidates(servers, start, i)
    && FirstUp(servers, start, isUp, i) == FirstUp(servers, start, isUp, 0)
  }

  /**
   * One iteration: probing the candidate under the cursor and advancing the
   * cursor either finishes the selection (the probe succeeded) or leaves the
   * loop one step further.
   */
  lemma ScannedStep(servers: seq<Endpoint>, start: nat, isUp: Endpoint -> bool, i: nat, cursor: nat, probed: seq<Endpoint>)
    requires i < |servers| && Scanned(servers, start, isUp, i, cursor, probed)
    ensures cursor < |servers| && InRange((cursor + 1) % |servers|, |servers|)
    ensures isUp(servers[cursor]) ==>
      Select(servers, start, isUp) == Selection(Some(servers[cursor]), (cursor + 1) % |servers|, probed + [servers[cursor]])
    ensures !isUp(servers[cursor]) ==>
      Scanned(servers, start, isUp, i + 1, (cursor + 1) % |servers|, probed + [servers[cursor]])
  {
    AdvanceStep(start, i, |servers|);
  }

  /** After N failed probes the selection is over: None, with the cursor where the loop left it. */
  lemma ScannedAll(servers: seq<Endpoint>, start: nat, isUp: Endpoint -> bool, cursor: nat, probed: seq<Endpoint>)
    requires Scanned(servers, start, isUp, |servers|, cursor, probed)
    ensures Select(servers, start, isUp) == Selection(None, cursor, probed)
  {
  }

  /** Moving one registered service's cursor to a position in range keeps the whole cursor table fitting. */
  lemma FitAfterMove(table: Table, cursors: Cursors, name: ServiceName, c: nat)
    requires CursorsFit(table, cursors) && name in table && InRange(c, |table[name]|)
    ensures CursorsFit(table, cursors[name := c])
  {
  }
}
