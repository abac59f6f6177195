/** The warned-area flag on location pings: which pings are evaluated (each user's latest one,
    if recent), whether a ping lies in a warning polygon, and the bulk overwrite of the flag.
    The stand-alone flagger task of `accounts/tasks.py` is modelled here; the alert sweep of
    `subscriptions/tasks.py` reuses the same pieces. Times are seconds; the current time is an
    input. */
module WarnedArea {
  import opened Wrappers
  import opened Geometry
  import opened NwsFeed

  /** A row of the location-history table. Coordinates are micro-degrees. */
  datatype Ping = Ping(pk: nat, user: nat, latitude: int, longitude: int, timestamp: int, inWarnedArea: bool)

  /** The point tested against polygons: longitude is x, latitude is y. */
  function Position(p: Ping): Point { Point(p.longitude, p.latitude) }

  /** Only pings from the last 30 minutes are evaluated. */
  const RecencyWindow: int := 30 * 60

  function Cutoff(now: int): int { now - RecencyWindow }

  /** Primary keys identify rows. */
  predicate UniquePks(table: seq<Ping>)
  {
    forall i, j :: 0 <= i < |table| && 0 <= j < |table| && table[i].pk == table[j].pk ==> i == j
  }

  /** `q` sorts before `p` in the per-user subquery ordered by descending timestamp. The
      database leaves ties unordered; the model breaks them towards the larger primary key. */
  predicate Newer(q: Ping, p: Ping)
  {
    q.timestamp > p.timestamp || (q.timestamp == p.timestamp && q.pk > p.pk)
  }

  predicate IsLatest(table: seq<Ping>, p: Ping)
  {
    p in table && forall q :: q in table && q.user == p.user ==> !Newer(q, p)
  }

  /** The rows a sweep evaluates: the user's latest row, at or after the cutoff. */
  predicate IsEvaluated(table: seq<Ping>, cutoff: int, p: Ping)
  {
    IsLatest(table, p) && p.timestamp >= cutoff
  }

  function EvaluatedFrom(table: seq<Ping>, cutoff: int, i: nat): (r: seq<Ping>)
    requires i <= |table|
    ensures forall p :: p in r <==> exists j :: i <= j < |table| && p == table[j] && IsEvaluated(table, cutoff, p)
    decreases |table| - i
  {
    if i == |table| then []
    else
      var rest := EvaluatedFrom(table, cutoff, i + 1);
      if IsEvaluated(table, cutoff, table[i]) then [table[i]] + rest else rest
  }

  /** The evaluated rows in table order. */
  function Evaluated(table: seq<Ping>, cutoff: int): (r: seq<Ping>)
    ensures forall p :: p in r <==> p in table && IsEvaluated(table, cutoff, p)
  {
    EvaluatedFrom(table, cutoff, 0)
  }

  /** With unique primary keys a user has at most one evaluated row. */
  lemma OneEvaluatedPerUser(table: seq<Ping>, cutoff: int, p: Ping, q: Ping)
    requires UniquePks(table)
    requires p in Evaluated(table, cutoff) && q in Evaluated(table, cutoff) && p.user == q.user
    ensures p == q
  {
    assert !Newer(q, p) && !Newer(p, q);
    var i :| 0 <= i < |table| && table[i] == p;
    var j :| 0 <= j < |table| && table[j] == q;
  }

  /** A newer row of the same user hides an older one, however recent the older one is. */
  lemma NewerRowHides(table: seq<Ping>, cutoff: int, p: Ping, q: Ping)
    requires p in table && q in table && q.user == p.user && Newer(q, p)
    ensures p !in Evaluated(table, cutoff)
  {
  }

  function PksOf(pings: seq<Ping>): (r: set<nat>)
    ensures forall k :: k in r <==> exists p :: p in pings && p.pk == k
  {
    set p | p in pings :: p.pk
  }

  // ---------------------------------------------------------------------------------------
  // Containment

  predicate InWarnedArea(rings: seq<Ring>, p: Ping)
  {
    exists k :: 0 <= k < |rings| && Contains(rings[k], Position(p))
  }

  /** Index of the first ring containing the point; the source stops at the first match. */
  function FirstMatch(rings: seq<Ring>, pt: Point): (r: Option<nat>)
    ensures r.Some? ==> r.value < |rings| && Contains(rings[r.value], pt)
                        && forall j :: 0 <= j < r.value ==> !Contains(rings[j], pt)
    ensures r.None? <==> forall j :: 0 <= j < |rings| ==> !Contains(rings[j], pt)
  {
    if |rings| == 0 then None
    else if Contains(rings[0], pt) then Some(0)
    else
      var rest := FirstMatch(rings[1..], pt);
      assert forall j :: 0 < j < |rings| ==> rings[j] == rings[1..][j - 1];
      if rest.None? then None else Some(rest.value + 1)
  }

  /** Primary keys of the evaluated pings inside some ring, scanning rings in order and
      stopping at the first hit. */
  method WarnedPks(evaluated: seq<Ping>, rings: seq<Ring>) returns (warned: set<nat>)
    ensures forall k :: k in warned <==> exists p :: p in evaluated && p.pk == k && InWarnedArea(rings, p)
  {
    warned := {};
    var i := 0;
    while i < |evaluated|
      invariant 0 <= i <= |evaluated|
      invariant forall k :: k in warned <==>
        exists p :: p in evaluated[..i] && p.pk == k && InWarnedArea(rings, p)
    {
      var p := evaluated[i];
      var isWarned := false;
      var j := 0;
      while j < |rings|
        invariant 0 <= j <= |rings|
        invariant isWarned ==> InWarnedArea(rings, p)
        invariant !isWarned ==> forall m :: 0 <= m < j ==> !Contains(rings[m], Position(p))
      {
        if Contains(rings[j], Position(p)) {
          isWarned := true;
          break;
        }
        j := j + 1;
      }
      assert evaluated[..i + 1] == evaluated[..i] + [p];
      if isWarned {
        warned := warned + {p.pk};
      }
      i := i + 1;
    }
    assert evaluated[..i] == evaluated;
  }

  // ---------------------------------------------------------------------------------------
  // Bulk overwrite

  /** The two bulk updates: rows whose key is warned get `true`; rows whose key was evaluated
      but not warned get `false`; every other row and every other field stays as it was. */
  function ApplyFlags(table: seq<Ping>, evaluatedPks: set<nat>, warned: set<nat>): (r: seq<Ping>)
    ensures |r| == |table|
    ensures forall i :: 0 <= i < |table| ==>
      && r[i] == table[i].(inWarnedArea := r[i].inWarnedArea)
      && (table[i].pk in warned ==> r[i].inWarnedArea)
      && (table[i].pk in evaluatedPks - warned ==> !r[i].inWarnedArea)
      && (table[i].pk !in evaluatedPks + warned ==> r[i] == table[i])
  {
    if |table| == 0 then []
    else
      var p := table[0];
      var q := if p.pk in warned then p.(inWarnedArea := true)
               else if p.pk in evaluatedPks then p.(inWarnedArea := false)
               else p;
      [q] + ApplyFlags(table[1..], evaluatedPks, warned)
  }

  /** Outcome of the stand-alone flagger. */
  datatype FlagOutcome = Aborted | Flagged(table: seq<Ping>)

  /** `check_locations_against_warnings` with the cutoff computed from `now`: abort before any
      write when the feed cannot be read; otherwise overwrite the flag of every evaluated ping
      with whether a polygon contains it. */
  method CheckLocationsAgainstWarnings(response: Option<seq<Feature>>, table: seq<Ping>, now: int)
    returns (r: FlagOutcome)
    requires UniquePks(table)
    ensures FlaggerPolygons(response).None? <==> r.Aborted?
    ensures r.Flagged? ==> |r.table| == |table|
    ensures r.Flagged? ==> forall i :: 0 <= i < |table| ==>
      && r.table[i] == table[i].(inWarnedArea := r.table[i].inWarnedArea)
      && (IsEvaluated(table, Cutoff(now), table[i]) ==>
            r.table[i].inWarnedArea == InWarnedArea(FlaggerPolygons(response).value, table[i]))
      && (!IsEvaluated(table, Cutoff(now), table[i]) ==> r.table[i] == table[i])
  {
    var polygons := FlaggerPolygons(response);
    if polygons.None? {
      return Aborted;
    }
    var rings := polygons.value;
    var evaluated := Evaluated(table, Cutoff(now));
    var warned := WarnedPks(evaluated, rings);
    var evaluatedPks := PksOf(evaluated);
    var updated := ApplyFlags(table, evaluatedPks, warned);
    forall i | 0 <= i < |table|
      ensures IsEvaluated(table, Cutoff(now), table[i]) ==>
                updated[i].inWarnedArea == InWarnedArea(rings, table[i])
      ensures !IsEvaluated(table, Cutoff(now), table[i]) ==> updated[i] == table[i]
    {
      KeyDeterminesRow(table, Cutoff(now), evaluated, i);
    }
    return Flagged(updated);
  }

  /** With unique keys, a row's key is among the evaluated keys only if the row itself is
      evaluated. */
  lemma KeyDeterminesRow(table: seq<Ping>, cutoff: int, evaluated: seq<Ping>, i: nat)
    requires UniquePks(table) && i < |table|
    requires evaluated == Evaluated(table, cutoff)
    ensures (exists p :: p in evaluated && p.pk == table[i].pk) <==> IsEvaluated(table, cutoff, table[i])
  {
    if exists p :: p in evaluated && p.pk == table[i].pk {
      var p :| p in evaluated && p.pk == table[i].pk;
      var j :| 0 <= j < |table| && table[j] == p;
    }
  }

  /** As written, `accounts/tasks.py` computes its cutoff with `timezone.now()`, where
      `timezone` is `datetime.timezone`, which has no `now`: the call raises after the feed is
      read and before any write, so the task never changes a flag. */
  function CheckLocationsAsWritten(response: Option<seq<Feature>>, table: seq<Ping>): (r: FlagOutcome)
  {
    Aborted
  }

  /** A tornado-warning box around 36.44 N, 95.28 W and a one-row table with a recent ping
      inside it. */
  const SampleBox: Ring := Box(-95300000, 36400000, -95200000, 36500000)
  const SampleFeed: Option<seq<Feature>> := Some([Feature(Some(Shape(Some("Polygon"), PositionList(SampleBox))), Properties(Some("Tornado Warning")))])
  const SamplePing: Ping := Ping(1, 7, 36440000, -95280000, 1000, false)

  /** The corrected task must set the sample ping's flag; the task as written leaves the table
      untouched. */
  lemma AsWrittenMissesWarnedPing()
    ensures FlaggerPolygons(SampleFeed) == Some([SampleBox])
    ensures IsEvaluated([SamplePing], Cutoff(1000), SamplePing)
    ensures InWarnedArea([SampleBox], SamplePing)
    ensures CheckLocationsAsWritten(SampleFeed, [SamplePing]).Aborted?
  {
    var f := SampleFeed.value[0];
    assert WarningEvents[0] == "Tornado Warning";
    assert FlaggerCandidate(f) && UsableRing(f) && !FlaggerRaises(f);
    var fs := SampleFeed.value;
    assert fs[1..] == [];
    assert GatherFlagger(fs[1..]) == Some([]);
    assert RingOf(f) == SampleBox;
    assert GatherFlagger(fs) == Some([SampleBox] + []);
    assert [SampleBox] + [] == [SampleBox];
    assert FlaggerPolygons(SampleFeed) == GatherFlagger(fs);
    BoxContains(-95300000, 36400000, -95200000, 36500000, Position(SamplePing));
    assert Contains([SampleBox][0], Position(SamplePing));
    assert IsLatest([SamplePing], SamplePing);
  }
}
