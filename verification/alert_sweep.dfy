/** The unified alert sweep of `subscriptions/tasks.py`. The personal part pushes point alerts
    for each user's monitored saved locations and records every delivered push in a ledger;
    the family part tells family members when a user's latest ping lies in a warning polygon
    and then overwrites the warned-area flag. Both NWS fetches and every push delivery are
    inputs: `fetch` answers the point query for (latitude, longitude), and `sendOk(i)` says
    whether the i-th push attempt (counting all attempts ever recorded) went through. */
module AlertSweep {
  import opened Wrappers
  import opened Geometry
  import opened NwsFeed
  import opened WarnedArea

  datatype Location = Location(pk: nat, name: string, latitude: int, longitude: int,
                               isDefault: bool, receiveNotifications: bool)

  /** A user as the sweep sees them: whether a profile exists, premium access, whether an
      active push device exists, and the profile's saved locations in primary-key order. */
  datatype User = User(id: nat, hasProfile: bool, premium: bool, hasActiveDevice: bool, locations: seq<Location>)

  /** A row of the notified-alert ledger. */
  datatype LedgerEntry = LedgerEntry(user: nat, alertId: string, location: nat)

  /** One push attempt of the personal sweep and whether it was delivered. */
  datatype Send = Send(user: nat, alertId: string, event: string, location: nat, delivered: bool)

  datatype Outbox = Outbox(ledger: seq<LedgerEntry>, sends: seq<Send>)

  type Fetch = (int, int) -> Option<seq<RawPointAlert>>

  /** The point alerts the feed gives for a location. */
  function AlertsAt(fetch: Fetch, l: Location): seq<PointAlert>
  {
    PointAlerts(fetch(l.latitude, l.longitude))
  }

  // ---------------------------------------------------------------------------------------
  // Which locations are monitored

  function KeepMonitored(locs: seq<Location>, premium: bool): (r: seq<Location>)
    ensures forall l :: l in r <==> l in locs && l.receiveNotifications && (premium || l.isDefault)
  {
    if |locs| == 0 then []
    else
      var rest := KeepMonitored(locs[1..], premium);
      assert forall l :: l in locs <==> l == locs[0] || l in locs[1..];
      if locs[0].receiveNotifications && (premium || locs[0].isDefault) then [locs[0]] + rest else rest
  }

  /** Locations with notifications on; without premium access only the default ones. */
  function Monitored(u: User): (r: seq<Location>)
    ensures forall l :: l in r <==> l in u.locations && l.receiveNotifications && (u.premium || l.isDefault)
  {
    KeepMonitored(u.locations, u.premium)
  }

  function LocPks(locs: seq<Location>): (r: set<nat>)
    ensures forall k :: k in r <==> exists l :: l in locs && l.pk == k
  {
    set l | l in locs :: l.pk
  }

  // ---------------------------------------------------------------------------------------
  // Ledger

  /** The alert ids already notified to a user. */
  function NotifiedIds(ledger: seq<LedgerEntry>, uid: nat): (r: set<string>)
    ensures forall id :: id in r <==> exists e :: e in ledger && e.user == uid && e.alertId == id
  {
    set e | e in ledger && e.user == uid :: e.alertId
  }

  function EntryOf(s: Send): LedgerEntry { LedgerEntry(s.user, s.alertId, s.location) }

  /** The ledger rows a run of sends writes: one per delivered send, in order. */
  function Entries(sends: seq<Send>): (r: seq<LedgerEntry>)
    ensures |r| <= |sends|
  {
    if |sends| == 0 then []
    else
      var rest := Entries(sends[1..]);
      if sends[0].delivered then [EntryOf(sends[0])] + rest else rest
  }

  /** A row is written for a send exactly when the send was delivered. */
  lemma {:induction false} EntriesExact(sends: seq<Send>)
    ensures forall e :: e in Entries(sends) <==> exists s :: s in sends && s.delivered && e == EntryOf(s)
    ensures (forall i :: 0 <= i < |sends| ==> !sends[i].delivered) ==> Entries(sends) == []
  {
    if |sends| > 0 {
      EntriesExact(sends[1..]);
      assert forall s :: s in sends <==> s == sends[0] || s in sends[1..];
      assert forall i :: 0 < i < |sends| ==> sends[i] == sends[1..][i - 1];
    }
  }

  lemma {:induction false} EntriesAppend(a: seq<Send>, b: seq<Send>)
    ensures Entries(a + b) == Entries(a) + Entries(b)
  {
    if |a| > 0 {
      assert (a + b)[1..] == a[1..] + b;
      EntriesAppend(a[1..], b);
    } else {
      assert a + b == b;
    }
  }

  function DeliveredEvents(sends: seq<Send>): set<string>
  {
    set s | s in sends && s.delivered :: s.event
  }

  // ---------------------------------------------------------------------------------------
  // Personal part

  /** Every send is for `uid`, has an id and an event name, was not notified before the user's
      turn began, has an event not yet pushed, and is at an allowed location. */
  predicate FreshSends(sends: seq<Send>, uid: nat, snapshot: set<string>, pushed: set<string>, allowed: set<nat>)
  {
    forall i :: 0 <= i < |sends| ==>
      && sends[i].user == uid && sends[i].alertId != "" && sends[i].event != ""
      && sends[i].alertId !in snapshot && sends[i].event !in pushed && sends[i].location in allowed
  }

  /** No user receives two delivered pushes for the same event name. */
  predicate DistinctDelivered(sends: seq<Send>)
  {
    forall i, j :: 0 <= i < j < |sends| && sends[i].delivered && sends[j].delivered && sends[i].user == sends[j].user
      ==> sends[i].event != sends[j].event
  }

  /** State of one user's turn: the event names pushed so far and the outbox. */
  datatype UserState = UserState(pushed: set<string>, out: Outbox)

  /** `r` continues `st` by sends that follow the rules of the personal sweep: only fresh
      alerts, one delivered push per event name, a ledger row exactly for each delivered
      push, and delivery decided by the attempt's number. */
  predicate Extends(st: UserState, r: UserState, uid: nat, snapshot: set<string>, allowed: set<nat>, sendOk: nat -> bool)
  {
    var n := |st.out.sends|;
    && n <= |r.out.sends| && r.out.sends[..n] == st.out.sends
    && FreshSends(r.out.sends[n..], uid, snapshot, st.pushed, allowed)
    && DistinctDelivered(r.out.sends[n..])
    && r.out.ledger == st.out.ledger + Entries(r.out.sends[n..])
    && r.pushed == st.pushed + DeliveredEvents(r.out.sends[n..])
    && DecidedBy(r.out.sends, n, sendOk)
  }

  /** Each send from index `n` on was delivered exactly when the oracle said so. */
  predicate DecidedBy(sends: seq<Send>, n: nat, sendOk: nat -> bool)
  {
    forall i :: n <= i < |sends| ==> sends[i].delivered == sendOk(i)
  }

  lemma ExtendsTrans(a: UserState, b: UserState, c: UserState, uid: nat, snapshot: set<string>,
                     allowed: set<nat>, sendOk: nat -> bool)
    requires Extends(a, b, uid, snapshot, allowed, sendOk) && Extends(b, c, uid, snapshot, allowed, sendOk)
    ensures Extends(a, c, uid, snapshot, allowed, sendOk)
  {
    ExtendsTransSends(a, b, c, uid, snapshot, allowed);
    ExtendsTransBooks(a, b, c, sendOk);
  }

  /** The sends of two extensions in a row: a prefix-preserving, fresh and distinct run. */
  lemma ExtendsTransSends(a: UserState, b: UserState, c: UserState, uid: nat, snapshot: set<string>,
                          allowed: set<nat>)
    requires |a.out.sends| <= |b.out.sends| <= |c.out.sends|
    requires b.out.sends[..|a.out.sends|] == a.out.sends && c.out.sends[..|b.out.sends|] == b.out.sends
    requires FreshSends(b.out.sends[|a.out.sends|..], uid, snapshot, a.pushed, allowed)
    requires FreshSends(c.out.sends[|b.out.sends|..], uid, snapshot, b.pushed, allowed)
    requires DistinctDelivered(b.out.sends[|a.out.sends|..]) && DistinctDelivered(c.out.sends[|b.out.sends|..])
    requires b.pushed == a.pushed + DeliveredEvents(b.out.sends[|a.out.sends|..])
    ensures c.out.sends[..|a.out.sends|] == a.out.sends
    ensures FreshSends(c.out.sends[|a.out.sends|..], uid, snapshot, a.pushed, allowed)
    ensures DistinctDelivered(c.out.sends[|a.out.sends|..])
  {
    var n, m := |a.out.sends|, |b.out.sends|;
    var ab, bc := b.out.sends[n..], c.out.sends[m..];
    SliceSplit(b.out.sends, c.out.sends, n);
    assert c.out.sends[..n] == c.out.sends[..m][..n];
    FreshAppend(ab, bc, uid, snapshot, a.pushed, b.pushed, allowed);
    assert forall k :: 0 <= k < |bc| ==> bc[k].event !in b.pushed;
    DistinctAppend(ab, bc, b.pushed);
  }

  /** The ledger, pushed events and delivery decisions of two extensions in a row. */
  lemma ExtendsTransBooks(a: UserState, b: UserState, c: UserState, sendOk: nat -> bool)
    requires |a.out.sends| <= |b.out.sends| <= |c.out.sends| && c.out.sends[..|b.out.sends|] == b.out.sends
    requires b.out.ledger == a.out.ledger + Entries(b.out.sends[|a.out.sends|..])
    requires c.out.ledger == b.out.ledger + Entries(c.out.sends[|b.out.sends|..])
    requires b.pushed == a.pushed + DeliveredEvents(b.out.sends[|a.out.sends|..])
    requires c.pushed == b.pushed + DeliveredEvents(c.out.sends[|b.out.sends|..])
    requires DecidedBy(b.out.sends, |a.out.sends|, sendOk) && DecidedBy(c.out.sends, |b.out.sends|, sendOk)
    ensures c.out.ledger == a.out.ledger + Entries(c.out.sends[|a.out.sends|..])
    ensures c.pushed == a.pushed + DeliveredEvents(c.out.sends[|a.out.sends|..])
    ensures DecidedBy(c.out.sends, |a.out.sends|, sendOk)
  {
    var n, m := |a.out.sends|, |b.out.sends|;
    var ab, bc := b.out.sends[n..], c.out.sends[m..];
    SliceSplit(b.out.sends, c.out.sends, n);
    LedgerTrans(a.out.ledger, b.out.ledger, c.out.ledger, ab, bc);
    DeliveredEventsAppend(ab, bc);
    DecidedTrans(b.out.sends, c.out.sends, n, sendOk);
  }

  /** The suffix of an extension from `n` is the old suffix followed by the new sends. */
  lemma SliceSplit(b: seq<Send>, c: seq<Send>, n: nat)
    requires n <= |b| <= |c| && c[..|b|] == b
    ensures c[n..] == b[n..] + c[|b|..]
  {
    assert forall k :: 0 <= k < |b| - n ==> c[n..][k] == c[..|b|][n + k];
  }

  lemma DecidedTrans(b: seq<Send>, c: seq<Send>, n: nat, sendOk: nat -> bool)
    requires n <= |b| <= |c| && c[..|b|] == b
    requires DecidedBy(b, n, sendOk) && DecidedBy(c, |b|, sendOk)
    ensures DecidedBy(c, n, sendOk)
  {
    forall i | n <= i < |c|
      ensures c[i].delivered == sendOk(i)
    {
      if i < |b| {
        assert c[i] == c[..|b|][i];
      }
    }
  }

  lemma LedgerTrans(la: seq<LedgerEntry>, lb: seq<LedgerEntry>, lc: seq<LedgerEntry>, ab: seq<Send>, bc: seq<Send>)
    requires lb == la + Entries(ab) && lc == lb + Entries(bc)
    ensures lc == la + Entries(ab + bc)
  {
    EntriesAppend(ab, bc);
    assert la + Entries(ab) + Entries(bc) == la + (Entries(ab) + Entries(bc));
  }

  lemma DeliveredEventsAppend(a: seq<Send>, b: seq<Send>)
    ensures DeliveredEvents(a + b) == DeliveredEvents(a) + DeliveredEvents(b)
  {
    assert forall s :: s in a + b <==> s in a || s in b;
  }

  lemma FreshAppend(a: seq<Send>, b: seq<Send>, uid: nat, snapshot: set<string>,
                    pushedA: set<string>, pushedB: set<string>, allowed: set<nat>)
    requires FreshSends(a, uid, snapshot, pushedA, allowed) && FreshSends(b, uid, snapshot, pushedB, allowed)
    requires pushedA <= pushedB
    ensures FreshSends(a + b, uid, snapshot, pushedA, allowed)
  {
    forall i | 0 <= i < |a + b|
      ensures (a + b)[i].user == uid && (a + b)[i].alertId != "" && (a + b)[i].event != ""
      ensures (a + b)[i].alertId !in snapshot && (a + b)[i].event !in pushedA && (a + b)[i].location in allowed
    {
      if i >= |a| {
        assert (a + b)[i] == b[i - |a|];
      }
    }
  }

  lemma DistinctAppend(a: seq<Send>, b: seq<Send>, pushed: set<string>)
    requires DistinctDelivered(a) && DistinctDelivered(b)
    requires DeliveredEvents(a) <= pushed
    requires forall k :: 0 <= k < |b| ==> b[k].event !in pushed
    ensures DistinctDelivered(a + b)
  {
    var ab := a + b;
    forall i, j | 0 <= i < j < |ab| && ab[i].delivered && ab[j].delivered && ab[i].user == ab[j].user
      ensures ab[i].event != ab[j].event
    {
      if i < |a| && j >= |a| {
        assert ab[i] == a[i] && ab[j] == b[j - |a|];
        assert a[i] in a;
        assert ab[i].event in DeliveredEvents(a);
      } else if i >= |a| {
        assert ab[i] == b[i - |a|] && ab[j] == b[j - |a|];
      }
    }
  }

  lemma ExtendsWiden(a: UserState, b: UserState, uid: nat, snapshot: set<string>,
                     allowed: set<nat>, wider: set<nat>, sendOk: nat -> bool)
    requires Extends(a, b, uid, snapshot, allowed, sendOk) && allowed <= wider
    ensures Extends(a, b, uid, snapshot, wider, sendOk)
  {
  }

  /** One point alert at one location (the body of the innermost loop). */
  function AlertStep(uid: nat, loc: Location, a: PointAlert, snapshot: set<string>,
                     st: UserState, sendOk: nat -> bool): (r: UserState)
    ensures Extends(st, r, uid, snapshot, {loc.pk}, sendOk)
    ensures (a.id == "" || a.event == "" || a.id in snapshot || a.event in st.pushed) ==> r == st
    ensures !(a.id == "" || a.event == "" || a.id in snapshot || a.event in st.pushed) ==>
      && |r.out.sends| == |st.out.sends| + 1
      && r.out.sends[|st.out.sends|].alertId == a.id
      && r.out.sends[|st.out.sends|].event == a.event
    ensures a.id != "" && a.event != "" && a.id !in snapshot ==>
      a.event in r.pushed || Attempted(r.out.sends[|st.out.sends|..], a)
  {
    if a.id == "" || a.event == "" || a.id in snapshot || a.event in st.pushed then
      assert st.out.sends[|st.out.sends|..] == [];
      st
    else
      var s := Send(uid, a.id, a.event, loc.pk, sendOk(|st.out.sends|));
      var sends := st.out.sends + [s];
      assert sends[|st.out.sends|..] == [s];
      assert sends[|st.out.sends|..][0] == s;
      assert Entries([s]) == if s.delivered then [EntryOf(s)] else [];
      if s.delivered then UserState(st.pushed + {a.event}, Outbox(st.out.ledger + [EntryOf(s)], sends))
      else UserState(st.pushed, Outbox(st.out.ledger, sends))
  }

  /** All point alerts of one location, in feed order. Every alert with an id and an event that
      was not notified before is either attempted here or has an event already delivered. */
  function AlertsRun(uid: nat, loc: Location, alerts: seq<PointAlert>, snapshot: set<string>,
                     st: UserState, sendOk: nat -> bool): (r: UserState)
    ensures Extends(st, r, uid, snapshot, {loc.pk}, sendOk)
    ensures forall a :: a in alerts && a.id != "" && a.event != "" && a.id !in snapshot ==>
      a.event in r.pushed || Attempted(r.out.sends[|st.out.sends|..], a)
    decreases |alerts|
  {
    if |alerts| == 0 then
      assert st.out.sends[|st.out.sends|..] == [];
      st
    else
      var mid := AlertStep(uid, loc, alerts[0], snapshot, st, sendOk);
      var r := AlertsRun(uid, loc, alerts[1..], snapshot, mid, sendOk);
      ExtendsTrans(st, mid, r, uid, snapshot, {loc.pk}, sendOk);
      AlertsCovered(alerts, snapshot, st, mid, r);
      r
  }

  /** Coverage composes: the first alert is covered by its own step, the rest by the run that
      follows it. */
  lemma AlertsCovered(alerts: seq<PointAlert>, snapshot: set<string>, st: UserState, mid: UserState, r: UserState)
    requires |alerts| > 0
    requires |st.out.sends| <= |mid.out.sends| <= |r.out.sends|
    requires r.out.sends[..|mid.out.sends|] == mid.out.sends && mid.pushed <= r.pushed
    requires alerts[0].id != "" && alerts[0].event != "" && alerts[0].id !in snapshot ==>
      alerts[0].event in mid.pushed || Attempted(mid.out.sends[|st.out.sends|..], alerts[0])
    requires forall a :: a in alerts[1..] && a.id != "" && a.event != "" && a.id !in snapshot ==>
      a.event in r.pushed || Attempted(r.out.sends[|mid.out.sends|..], a)
    ensures forall a :: a in alerts && a.id != "" && a.event != "" && a.id !in snapshot ==>
      a.event in r.pushed || Attempted(r.out.sends[|st.out.sends|..], a)
  {
    forall a | a in alerts && a.id != "" && a.event != "" && a.id !in snapshot
      ensures a.event in r.pushed || Attempted(r.out.sends[|st.out.sends|..], a)
    {
      AttemptedKept(st, mid, r, a);
      if a != alerts[0] {
        assert a in alerts[1..];
      }
    }
  }

  predicate Attempted(sends: seq<Send>, a: PointAlert)
  {
    exists i :: 0 <= i < |sends| && sends[i].alertId == a.id && sends[i].event == a.event
  }

  lemma AttemptedKept(st: UserState, mid: UserState, r: UserState, a: PointAlert)
    requires |st.out.sends| <= |mid.out.sends| <= |r.out.sends|
    requires r.out.sends[..|mid.out.sends|] == mid.out.sends
    requires mid.pushed <= r.pushed
    ensures a.event in mid.pushed || Attempted(mid.out.sends[|st.out.sends|..], a) ==>
      a.event in r.pushed || Attempted(r.out.sends[|st.out.sends|..], a)
    ensures Attempted(r.out.sends[|mid.out.sends|..], a) ==> Attempted(r.out.sends[|st.out.sends|..], a)
  {
    var n, m := |st.out.sends|, |mid.out.sends|;
    if Attempted(mid.out.sends[n..], a) {
      var i :| 0 <= i < m - n && mid.out.sends[n..][i].alertId == a.id && mid.out.sends[n..][i].event == a.event;
      assert r.out.sends[n..][i] == mid.out.sends[n..][i];
    }
    if Attempted(r.out.sends[m..], a) {
      var i :| 0 <= i < |r.out.sends| - m && r.out.sends[m..][i].alertId == a.id && r.out.sends[m..][i].event == a.event;
      assert r.out.sends[n..][i + m - n] == r.out.sends[m..][i];
    }
  }

  /** One user's monitored locations, in order. Every alert with an id and an event that was
      not notified before, at any of the locations, is either attempted or has an event
      already delivered. */
  function LocationsRun(uid: nat, locs: seq<Location>, snapshot: set<string>, st: UserState,
                        fetch: Fetch, sendOk: nat -> bool): (r: UserState)
    ensures Extends(st, r, uid, snapshot, LocPks(locs), sendOk)
    ensures forall l, a :: l in locs && Due(fetch, l, a, snapshot) ==>
      a.event in r.pushed || Attempted(r.out.sends[|st.out.sends|..], a)
    decreases |locs|
  {
    if |locs| == 0 then
      assert st.out.sends[|st.out.sends|..] == [];
      st
    else
      var loc := locs[0];
      var mid := AlertsRun(uid, loc, AlertsAt(fetch, loc), snapshot, st, sendOk);
      var r := LocationsRun(uid, locs[1..], snapshot, mid, fetch, sendOk);
      LocationsCompose(uid, locs, snapshot, st, mid, r, sendOk);
      LocationsCovered(locs, fetch, snapshot, st, mid, r);
      r
  }

  /** Coverage composes over locations: the first location by its own run, the rest by the
      run that follows it. */
  lemma LocationsCovered(locs: seq<Location>, fetch: Fetch, snapshot: set<string>, st: UserState, mid: UserState,
                         r: UserState)
    requires |locs| > 0
    requires |st.out.sends| <= |mid.out.sends| <= |r.out.sends|
    requires r.out.sends[..|mid.out.sends|] == mid.out.sends && mid.pushed <= r.pushed
    requires forall a :: Due(fetch, locs[0], a, snapshot) ==>
      a.event in mid.pushed || Attempted(mid.out.sends[|st.out.sends|..], a)
    requires forall l, a :: l in locs[1..] && Due(fetch, l, a, snapshot) ==>
      a.event in r.pushed || Attempted(r.out.sends[|mid.out.sends|..], a)
    ensures forall l, a :: l in locs && Due(fetch, l, a, snapshot) ==>
      a.event in r.pushed || Attempted(r.out.sends[|st.out.sends|..], a)
  {
    forall l, a | l in locs && Due(fetch, l, a, snapshot)
      ensures a.event in r.pushed || Attempted(r.out.sends[|st.out.sends|..], a)
    {
      AttemptedKept(st, mid, r, a);
      if l != locs[0] {
        assert l in locs[1..];
      }
    }
  }

  /** The first location's run followed by the rest's is a run over all the locations. */
  lemma LocationsCompose(uid: nat, locs: seq<Location>, snapshot: set<string>, st: UserState, mid: UserState,
                         r: UserState, sendOk: nat -> bool)
    requires |locs| > 0
    requires Extends(st, mid, uid, snapshot, {locs[0].pk}, sendOk)
    requires Extends(mid, r, uid, snapshot, LocPks(locs[1..]), sendOk)
    ensures Extends(st, r, uid, snapshot, LocPks(locs), sendOk)
  {
    assert forall l :: l in locs[1..] ==> l in locs;
    ExtendsWiden(st, mid, uid, snapshot, {locs[0].pk}, LocPks(locs), sendOk);
    ExtendsWiden(mid, r, uid, snapshot, LocPks(locs[1..]), LocPks(locs), sendOk);
    ExtendsTrans(st, mid, r, uid, snapshot, LocPks(locs), sendOk);
  }

  /** One user's turn: skipped without a profile or an active device; otherwise the ledger is
      read once and every monitored location is checked with an empty pushed-event set. */
  function UserTurn(u: User, out: Outbox, fetch: Fetch, sendOk: nat -> bool): (r: Outbox)
    ensures (!u.hasProfile || !u.hasActiveDevice) ==> r == out
    ensures |out.sends| <= |r.sends|
    ensures Extends(UserState({}, out), UserState(DeliveredEvents(r.sends[|out.sends|..]), r), u.id,
                    NotifiedIds(out.ledger, u.id), LocPks(Monitored(u)), sendOk)
    ensures Checked(u) ==>
      forall l, a :: l in Monitored(u) && Due(fetch, l, a, NotifiedIds(out.ledger, u.id))
        ==> Reached(r.sends[|out.sends|..], u.id, a)
  {
    if !u.hasProfile || !u.hasActiveDevice then
      assert out.sends[|out.sends|..] == [];
      out
    else
      var r := LocationsRun(u.id, Monitored(u), NotifiedIds(out.ledger, u.id), UserState({}, out), fetch, sendOk);
      TurnReaches(u.id, Monitored(u), fetch, NotifiedIds(out.ledger, u.id), r.out.sends[|out.sends|..], r.pushed);
      r.out
  }

  /** An alert at a location that the sweep owes a push: it has an id and an event, and its id
      is not among those already notified. */
  predicate Due(fetch: Fetch, l: Location, a: PointAlert, seen: set<string>)
  {
    a in AlertsAt(fetch, l) && a.id != "" && a.event != "" && a.id !in seen
  }

  /** A user the sweep looks at: one with a profile and an active device. */
  predicate Checked(u: User)
  {
    u.hasProfile && u.hasActiveDevice
  }

  /** A user is reached for an alert when the new sends hold an attempt of that alert for the
      user, or a delivered push of the same event to the user. */
  predicate Reached(sends: seq<Send>, uid: nat, a: PointAlert)
  {
    exists i :: 0 <= i < |sends| && sends[i].user == uid && sends[i].event == a.event
                && (sends[i].alertId == a.id || sends[i].delivered)
  }

  /** Within one user's turn every send is for that user, so covered alerts are reached. */
  lemma TurnReaches(uid: nat, locs: seq<Location>, fetch: Fetch, snapshot: set<string>, sends: seq<Send>,
                    pushed: set<string>)
    requires forall k :: 0 <= k < |sends| ==> sends[k].user == uid
    requires pushed == {} + DeliveredEvents(sends)
    requires forall l, a :: l in locs && Due(fetch, l, a, snapshot) ==>
      a.event in pushed || Attempted(sends, a)
    ensures forall l, a :: l in locs && Due(fetch, l, a, snapshot) ==>
      Reached(sends, uid, a)
  {
    forall l, a | l in locs && Due(fetch, l, a, snapshot)
      ensures Reached(sends, uid, a)
    {
      if a.event in DeliveredEvents(sends) {
        var s :| s in sends && s.delivered && s.event == a.event;
        var k :| 0 <= k < |sends| && sends[k] == s;
      } else {
        var k :| 0 <= k < |sends| && sends[k].alertId == a.id && sends[k].event == a.event;
      }
    }
  }

  /** A send is one the personal sweep may make: to a checked user, at one of that user's
      monitored locations, for an alert with an id and an event that the ledger did not hold
      for that user when the run began. */
  predicate Permitted(users: seq<User>, ledger: seq<LedgerEntry>, s: Send)
  {
    && s.alertId != "" && s.event != ""
    && s.alertId !in NotifiedIds(ledger, s.user)
    && exists u :: u in users && u.id == s.user && u.hasProfile && u.hasActiveDevice && s.location in LocPks(Monitored(u))
  }

  predicate AllPermitted(users: seq<User>, ledger: seq<LedgerEntry>, sends: seq<Send>)
  {
    forall i :: 0 <= i < |sends| ==> Permitted(users, ledger, sends[i])
  }

  predicate UniqueIds(users: seq<User>)
  {
    forall i, j :: 0 <= i < |users| && 0 <= j < |users| && users[i].id == users[j].id ==> i == j
  }

  /** The personal part of `process_all_alerts` over the users in order: the outbox only
      grows, a ledger row is written exactly for each delivered send, delivery is the oracle's
      answer, every send is permitted, and (users being distinct) no user gets two delivered
      pushes for one event name. */
  function PersonalSweep(users: seq<User>, out: Outbox, fetch: Fetch, sendOk: nat -> bool): (r: Outbox)
    ensures |out.sends| <= |r.sends| && r.sends[..|out.sends|] == out.sends
    ensures r.ledger == out.ledger + Entries(r.sends[|out.sends|..])
    ensures DecidedBy(r.sends, |out.sends|, sendOk)
    ensures AllPermitted(users, out.ledger, r.sends[|out.sends|..])
    ensures UniqueIds(users) ==> DistinctDelivered(r.sends[|out.sends|..])
    decreases |users|
  {
    if |users| == 0 then
      assert out.sends[|out.sends|..] == [];
      out
    else
      var mid := UserTurn(users[0], out, fetch, sendOk);
      var r := PersonalSweep(users[1..], mid, fetch, sendOk);
      SweepCompose(users, out, mid, r, sendOk);
      r
  }

  lemma SweepCompose(users: seq<User>, out: Outbox, mid: Outbox, r: Outbox, sendOk: nat -> bool)
    requires |users| > 0 && |out.sends| <= |mid.sends|
    requires Extends(UserState({}, out), UserState(DeliveredEvents(mid.sends[|out.sends|..]), mid), users[0].id,
                     NotifiedIds(out.ledger, users[0].id), LocPks(Monitored(users[0])), sendOk)
    requires (!users[0].hasProfile || !users[0].hasActiveDevice) ==> mid == out
    requires |mid.sends| <= |r.sends| && r.sends[..|mid.sends|] == mid.sends
    requires r.ledger == mid.ledger + Entries(r.sends[|mid.sends|..])
    requires DecidedBy(r.sends, |mid.sends|, sendOk)
    requires AllPermitted(users[1..], mid.ledger, r.sends[|mid.sends|..])
    requires UniqueIds(users[1..]) ==> DistinctDelivered(r.sends[|mid.sends|..])
    ensures |out.sends| <= |r.sends| && r.sends[..|out.sends|] == out.sends
    ensures r.ledger == out.ledger + Entries(r.sends[|out.sends|..])
    ensures DecidedBy(r.sends, |out.sends|, sendOk)
    ensures AllPermitted(users, out.ledger, r.sends[|out.sends|..])
    ensures UniqueIds(users) ==> DistinctDelivered(r.sends[|out.sends|..])
  {
    var n, m := |out.sends|, |mid.sends|;
    var first, rest := mid.sends[n..], r.sends[m..];
    OutboxTrans(out, mid, r, sendOk);
    assert r.sends[n..] == first + rest;
    assert |first| > 0 ==> users[0].hasProfile && users[0].hasActiveDevice;
    PermittedCompose(users, out.ledger, mid.ledger, first, rest);
    if UniqueIds(users) {
      UniqueIdsTail(users);
      DistinctCompose(users, mid.ledger, first, rest);
    }
  }

  /** Two runs of sends in a row, each with its ledger rows and delivery decisions, make one
      run. */
  lemma OutboxTrans(out: Outbox, mid: Outbox, r: Outbox, sendOk: nat -> bool)
    requires |out.sends| <= |mid.sends| <= |r.sends|
    requires mid.sends[..|out.sends|] == out.sends && r.sends[..|mid.sends|] == mid.sends
    requires mid.ledger == out.ledger + Entries(mid.sends[|out.sends|..])
    requires r.ledger == mid.ledger + Entries(r.sends[|mid.sends|..])
    requires DecidedBy(mid.sends, |out.sends|, sendOk) && DecidedBy(r.sends, |mid.sends|, sendOk)
    ensures r.sends[|out.sends|..] == mid.sends[|out.sends|..] + r.sends[|mid.sends|..]
    ensures r.sends[..|out.sends|] == out.sends
    ensures r.ledger == out.ledger + Entries(r.sends[|out.sends|..])
    ensures DecidedBy(r.sends, |out.sends|, sendOk)
  {
    var n, m := |out.sends|, |mid.sends|;
    SliceSplit(mid.sends, r.sends, n);
    assert r.sends[..n] == r.sends[..m][..n];
    LedgerTrans(out.ledger, mid.ledger, r.ledger, mid.sends[n..], r.sends[m..]);
    DecidedTrans(mid.sends, r.sends, n, sendOk);
  }

  lemma UniqueIdsTail(users: seq<User>)
    requires |users| > 0 && UniqueIds(users)
    ensures UniqueIds(users[1..])
    ensures forall u :: u in users[1..] ==> u.id != users[0].id
  {
    forall i, j | 0 <= i < |users| - 1 && 0 <= j < |users| - 1 && users[1..][i].id == users[1..][j].id
      ensures i == j
    {
      assert users[i + 1].id == users[j + 1].id;
    }
    forall u | u in users[1..]
      ensures u.id != users[0].id
    {
      var k :| 0 <= k < |users| - 1 && users[1..][k] == u;
      assert users[k + 1] == u;
    }
  }

  lemma PermittedCompose(users: seq<User>, ledger: seq<LedgerEntry>, ledger': seq<LedgerEntry>,
                         first: seq<Send>, rest: seq<Send>)
    requires |users| > 0
    requires FreshSends(first, users[0].id, NotifiedIds(ledger, users[0].id), {}, LocPks(Monitored(users[0])))
    requires |first| > 0 ==> users[0].hasProfile && users[0].hasActiveDevice
    requires AllPermitted(users[1..], ledger', rest)
    requires ledger' == ledger + Entries(first)
    ensures AllPermitted(users, ledger, first + rest)
  {
    forall i | 0 <= i < |first + rest|
      ensures Permitted(users, ledger, (first + rest)[i])
    {
      var s := (first + rest)[i];
      if i < |first| {
        assert s == first[i];
        assert users[0] in users;
      } else {
        assert s == rest[i - |first|];
        assert Permitted(users[1..], ledger', s);
        assert forall u :: u in users[1..] ==> u in users;
        assert NotifiedIds(ledger, s.user) <= NotifiedIds(ledger', s.user);
      }
    }
  }

  lemma DistinctCompose(users: seq<User>, ledger: seq<LedgerEntry>, first: seq<Send>, rest: seq<Send>)
    requires |users| > 0
    requires forall u :: u in users[1..] ==> u.id != users[0].id
    requires forall k :: 0 <= k < |first| ==> first[k].user == users[0].id
    requires AllPermitted(users[1..], ledger, rest)
    requires DistinctDelivered(first) && DistinctDelivered(rest)
    ensures DistinctDelivered(first + rest)
  {
    var all := first + rest;
    forall i, j | 0 <= i < j < |all| && all[i].delivered && all[j].delivered && all[i].user == all[j].user
      ensures all[i].event != all[j].event
    {
      if i < |first| && j >= |first| {
        assert false;
      } else if i >= |first| {
        assert all[i] == rest[i - |first|] && all[j] == rest[j - |first|];
      } else {
        assert all[i] == first[i] && all[j] == first[j];
      }
    }
  }

  /** An alert delivered to a user in one run is never attempted for that user in a later run,
      whatever the feeds and deliveries of the later run. */
  lemma DeliveredNeverResent(users: seq<User>, out: Outbox, fetch1: Fetch, sendOk1: nat -> bool,
                             fetch2: Fetch, sendOk2: nat -> bool, i: nat, j: nat)
    requires var o1 := PersonalSweep(users, out, fetch1, sendOk1);
             var o2 := PersonalSweep(users, o1, fetch2, sendOk2);
             |out.sends| <= i < |o1.sends| <= j < |o2.sends|
             && o1.sends[i].delivered && o2.sends[j].user == o1.sends[i].user
    ensures var o1 := PersonalSweep(users, out, fetch1, sendOk1);
            var o2 := PersonalSweep(users, o1, fetch2, sendOk2);
            o2.sends[j].alertId != o1.sends[i].alertId
  {
    var o1 := PersonalSweep(users, out, fetch1, sendOk1);
    var o2 := PersonalSweep(users, o1, fetch2, sendOk2);
    RunsDoNotRepeat(users, out, o1, o2, i, j);
  }

  /** Two consecutive runs, stated through the facts the sweep guarantees about each. */
  lemma RunsDoNotRepeat(users: seq<User>, out: Outbox, o1: Outbox, o2: Outbox, i: nat, j: nat)
    requires |out.sends| <= i < |o1.sends| <= j < |o2.sends|
    requires o1.ledger == out.ledger + Entries(o1.sends[|out.sends|..])
    requires AllPermitted(users, o1.ledger, o2.sends[|o1.sends|..])
    requires o1.sends[i].delivered && o2.sends[j].user == o1.sends[i].user
    ensures o2.sends[j].alertId != o1.sends[i].alertId
  {
    var n, m := |out.sends|, |o1.sends|;
    var run1, run2 := o1.sends[n..], o2.sends[m..];
    assert o1.sends[i] == run1[i - n];
    assert o2.sends[j] == run2[j - m];
    LedgerBlocksResend(users, out.ledger, o1.ledger, run1, run2, i - n, j - m);
  }

  lemma LedgerBlocksResend(users: seq<User>, ledger0: seq<LedgerEntry>, ledger1: seq<LedgerEntry>,
                           run1: seq<Send>, run2: seq<Send>, i: nat, j: nat)
    requires ledger1 == ledger0 + Entries(run1)
    requires AllPermitted(users, ledger1, run2)
    requires i < |run1| && j < |run2| && run1[i].delivered && run2[j].user == run1[i].user
    ensures run2[j].alertId != run1[i].alertId
  {
    EntriesExact(run1);
    assert run1[i] in run1;
    assert EntryOf(run1[i]) in ledger1;
    assert Permitted(users, ledger1, run2[j]);
  }

  /** A run in which no push goes through writes no ledger row, so every alert it attempted is
      attempted again by the next run. */
  lemma FailedSendsWriteNothing(users: seq<User>, out: Outbox, fetch: Fetch, sendOk: nat -> bool)
    requires forall i: nat :: !sendOk(i)
    ensures PersonalSweep(users, out, fetch, sendOk).ledger == out.ledger
  {
    var r := PersonalSweep(users, out, fetch, sendOk);
    NoDeliveries(r.sends, |out.sends|, sendOk);
    assert out.ledger + [] == out.ledger;
  }

  /** Sends decided by an oracle that always fails write no ledger row. */
  lemma NoDeliveries(sends: seq<Send>, n: nat, sendOk: nat -> bool)
    requires n <= |sends| && DecidedBy(sends, n, sendOk)
    requires forall i: nat :: !sendOk(i)
    ensures Entries(sends[n..]) == []
  {
    forall k | 0 <= k < |sends[n..]|
      ensures !sends[n..][k].delivered
    {
      assert sends[n..][k] == sends[n + k];
    }
    EntriesExact(sends[n..]);
  }

  /** With distinct users, the sweep reaches every checked user for every alert with an id and
      an event at any of the user's monitored locations that the ledger did not hold for the
      user when the run began. */
  lemma {:induction false} PersonalSweepReaches(users: seq<User>, out: Outbox, fetch: Fetch, sendOk: nat -> bool)
    requires UniqueIds(users)
    ensures var r := PersonalSweep(users, out, fetch, sendOk);
      forall u, l, a :: u in users && Checked(u) && l in Monitored(u) && Due(fetch, l, a, NotifiedIds(out.ledger, u.id)) ==>
        Reached(r.sends[|out.sends|..], u.id, a)
    decreases |users|
  {
    if |users| > 0 {
      var mid := UserTurn(users[0], out, fetch, sendOk);
      var r := PersonalSweep(users[1..], mid, fetch, sendOk);
      assert PersonalSweep(users, out, fetch, sendOk) == r;
      UniqueIdsTail(users);
      PersonalSweepReaches(users[1..], mid, fetch, sendOk);
      ReachesCompose(users, out, mid, r, fetch);
    }
  }

  /** Reaching composes over users: the first user by their own turn, every later user by the
      rest of the sweep, whose ledger holds nothing new for them. */
  lemma ReachesCompose(users: seq<User>, out: Outbox, mid: Outbox, r: Outbox, fetch: Fetch)
    requires |users| > 0 && UniqueIds(users)
    requires forall u :: u in users[1..] ==> u.id != users[0].id
    requires |out.sends| <= |mid.sends| <= |r.sends| && r.sends[..|mid.sends|] == mid.sends
    requires mid.ledger == out.ledger + Entries(mid.sends[|out.sends|..])
    requires forall k :: 0 <= k < |mid.sends[|out.sends|..]| ==> mid.sends[|out.sends|..][k].user == users[0].id
    requires Checked(users[0]) ==>
      forall l, a :: l in Monitored(users[0]) && Due(fetch, l, a, NotifiedIds(out.ledger, users[0].id))
        ==> Reached(mid.sends[|out.sends|..], users[0].id, a)
    requires forall u, l, a :: u in users[1..] && Checked(u) && l in Monitored(u) && Due(fetch, l, a, NotifiedIds(mid.ledger, u.id)) ==>
      Reached(r.sends[|mid.sends|..], u.id, a)
    ensures forall u, l, a :: u in users && Checked(u) && l in Monitored(u) && Due(fetch, l, a, NotifiedIds(out.ledger, u.id)) ==>
      Reached(r.sends[|out.sends|..], u.id, a)
  {
    var n, m := |out.sends|, |mid.sends|;
    var first, rest := mid.sends[n..], r.sends[m..];
    SliceSplit(mid.sends, r.sends, n);
    forall u, l, a | u in users && Checked(u) && l in Monitored(u) && Due(fetch, l, a, NotifiedIds(out.ledger, u.id))
      ensures Reached(r.sends[n..], u.id, a)
    {
      if u == users[0] {
        ReachedAppend(first, rest, u.id, a);
      } else {
        assert u in users[1..];
        OtherLedgerRows(out.ledger, first, users[0].id, u.id);
        ReachedAppend(first, rest, u.id, a);
      }
    }
  }

  lemma ReachedAppend(first: seq<Send>, rest: seq<Send>, uid: nat, a: PointAlert)
    ensures Reached(first, uid, a) || Reached(rest, uid, a) ==> Reached(first + rest, uid, a)
  {
    if Reached(first, uid, a) {
      var i :| 0 <= i < |first| && first[i].user == uid && first[i].event == a.event
               && (first[i].alertId == a.id || first[i].delivered);
      assert (first + rest)[i] == first[i];
    } else if Reached(rest, uid, a) {
      var i :| 0 <= i < |rest| && rest[i].user == uid && rest[i].event == a.event
               && (rest[i].alertId == a.id || rest[i].delivered);
      assert (first + rest)[|first| + i] == rest[i];
    }
  }

  /** Rows written for one user's sends leave every other user's notified ids unchanged. */
  lemma OtherLedgerRows(ledger: seq<LedgerEntry>, sends: seq<Send>, owner: nat, other: nat)
    requires owner != other
    requires forall k :: 0 <= k < |sends| ==> sends[k].user == owner
    ensures NotifiedIds(ledger + Entries(sends), other) == NotifiedIds(ledger, other)
  {
    EntriesOfOwner(sends, owner);
    var rows := Entries(sends);
    assert forall e :: e in rows ==> e.user == owner;
  }

  lemma {:induction false} EntriesOfOwner(sends: seq<Send>, owner: nat)
    requires forall k :: 0 <= k < |sends| ==> sends[k].user == owner
    ensures forall k :: 0 <= k < |Entries(sends)| ==> Entries(sends)[k].user == owner
  {
    if |sends| > 0 {
      EntriesOfOwner(sends[1..], owner);
    }
  }

  // ---------------------------------------------------------------------------------------
  // Family part

  datatype Family = Family(owner: nat, members: set<nat>)

  /** A push to `recipient` that user `about` is inside a warning of kind `event`. */
  datatype FamilyNotice = FamilyNotice(recipient: nat, about: nat, event: string)

  predicate InFamily(f: Family, uid: nat) { f.owner == uid || uid in f.members }

  /** The first family (in primary-key order) that the user owns or belongs to. */
  function FamilyOf(families: seq<Family>, uid: nat): (r: Option<Family>)
    ensures r.None? <==> forall i :: 0 <= i < |families| ==> !InFamily(families[i], uid)
    ensures r.Some? ==> exists i :: 0 <= i < |families| && r.value == families[i] && InFamily(families[i], uid)
                                    && forall j :: 0 <= j < i ==> !InFamily(families[j], uid)
  {
    if |families| == 0 then None
    else if InFamily(families[0], uid) then Some(families[0])
    else
      var rest := FamilyOf(families[1..], uid);
      assert forall i :: 0 < i < |families| ==> families[i] == families[1..][i - 1];
      if rest.Some? then
        var i :| 0 <= i < |families| - 1 && rest.value == families[1..][i] && InFamily(families[1..][i], uid)
                 && forall j :: 0 <= j < i ==> !InFamily(families[1..][j], uid);
        assert forall j :: 0 < j < i + 1 ==> families[j] == families[1..][j - 1];
        rest
      else rest
  }

  /** Everyone in the family except the warned user, restricted to users with an active
      device. */
  function Recipients(f: Family, warned: nat, devices: set<nat>): (r: set<nat>)
    ensures forall m :: m in r <==> InFamily(f, m) && m != warned && m in devices
  {
    (({f.owner} + f.members) - {warned}) * devices
  }

  function RingsOf(polys: seq<WarningPolygon>): (r: seq<Ring>)
    ensures |r| == |polys| && forall i :: 0 <= i < |polys| ==> r[i] == polys[i].ring
  {
    seq(|polys|, i requires 0 <= i < |polys| => polys[i].ring)
  }

  function NoticesFor(p: Ping, event: string, families: seq<Family>, devices: set<nat>): (r: set<FamilyNotice>)
    ensures FamilyOf(families, p.user).None? ==> r == {}
    ensures FamilyOf(families, p.user).Some? ==>
      forall n :: n in r <==> n.about == p.user && n.event == event
                              && n.recipient in Recipients(FamilyOf(families, p.user).value, p.user, devices)
  {
    match FamilyOf(families, p.user)
    case None => {}
    case Some(f) => set m | m in Recipients(f, p.user, devices) :: FamilyNotice(m, p.user, event)
  }

  /** The pushes one evaluated ping causes: only the first polygon containing it counts. */
  function PingNotices(p: Ping, polys: seq<WarningPolygon>, families: seq<Family>, devices: set<nat>): (r: set<FamilyNotice>)
    ensures !InWarnedArea(RingsOf(polys), p) ==> r == {}
    ensures forall n :: n in r ==> n.about == p.user && n.recipient != p.user && n.recipient in devices
  {
    match FirstMatch(RingsOf(polys), Position(p))
    case None => {}
    case Some(k) => NoticesFor(p, polys[k].event, families, devices)
  }

  /** Every notice a ping causes names the event of a polygon that contains the ping. */
  lemma PingNoticeNamesPolygon(p: Ping, polys: seq<WarningPolygon>, families: seq<Family>, devices: set<nat>, n: FamilyNotice)
    requires n in PingNotices(p, polys, families, devices)
    ensures exists k :: 0 <= k < |polys| && n.event == polys[k].event && Contains(polys[k].ring, Position(p))
  {
    var k := FirstMatch(RingsOf(polys), Position(p)).value;
    assert n.event == polys[k].event;
  }

  /** The polygon loop for one ping: scan in order and stop at the first polygon containing
      the point. */
  method FirstHit(polys: seq<WarningPolygon>, pt: Point) returns (hit: Option<nat>)
    ensures hit == FirstMatch(RingsOf(polys), pt)
  {
    var j := 0;
    while j < |polys|
      invariant 0 <= j <= |polys|
      invariant forall m :: 0 <= m < j ==> !Contains(RingsOf(polys)[m], pt)
    {
      if Contains(polys[j].ring, pt) {
        return Some(j);
      }
      j := j + 1;
    }
    return None;
  }

  ghost predicate WarnedExactly(pings: seq<Ping>, warned: set<nat>, rings: seq<Ring>)
  {
    forall k :: k in warned <==> exists p :: p in pings && p.pk == k && InWarnedArea(rings, p)
  }

  ghost predicate NoticesExactly(pings: seq<Ping>, notices: set<FamilyNotice>, polys: seq<WarningPolygon>,
                           families: seq<Family>, devices: set<nat>)
  {
    forall n :: n in notices <==> exists p :: p in pings && n in PingNotices(p, polys, families, devices)
  }

  lemma WarnedStep(pings: seq<Ping>, p: Ping, warned: set<nat>, rings: seq<Ring>, hit: Option<nat>)
    requires WarnedExactly(pings, warned, rings)
    requires hit == FirstMatch(rings, Position(p))
    ensures WarnedExactly(pings + [p], if hit.Some? then warned + {p.pk} else warned, rings)
  {
    assert forall q :: q in pings + [p] <==> q in pings || q == p;
  }

  lemma NoticesStep(pings: seq<Ping>, p: Ping, notices: set<FamilyNotice>, polys: seq<WarningPolygon>,
                    families: seq<Family>, devices: set<nat>, hit: Option<nat>)
    requires NoticesExactly(pings, notices, polys, families, devices)
    requires hit == FirstMatch(RingsOf(polys), Position(p))
    ensures hit.Some? ==> hit.value < |polys|
    ensures NoticesExactly(pings + [p],
                           if hit.Some? then notices + NoticesFor(p, polys[hit.value].event, families, devices) else notices,
                           polys, families, devices)
  {
    var own := PingNotices(p, polys, families, devices);
    assert own == if hit.Some? then NoticesFor(p, polys[hit.value].event, families, devices) else {};
    NoticesAppend(pings, p, notices, polys, families, devices);
    assert (if hit.Some? then notices + own else notices) == notices + own;
  }

  /** The notices of one more ping are the old ones together with that ping's own. */
  lemma NoticesAppend(pings: seq<Ping>, p: Ping, notices: set<FamilyNotice>, polys: seq<WarningPolygon>,
                      families: seq<Family>, devices: set<nat>)
    requires NoticesExactly(pings, notices, polys, families, devices)
    ensures NoticesExactly(pings + [p], notices + PingNotices(p, polys, families, devices), polys, families, devices)
  {
    var own := PingNotices(p, polys, families, devices);
    var after := notices + own;
    forall n | n in after
      ensures exists q :: q in pings + [p] && n in PingNotices(q, polys, families, devices)
    {
      if n !in own {
        var q :| q in pings && n in PingNotices(q, polys, families, devices);
        assert q in pings + [p];
      } else {
        assert p in pings + [p];
      }
    }
    forall n | exists q :: q in pings + [p] && n in PingNotices(q, polys, families, devices)
      ensures n in after
    {
      var q :| q in pings + [p] && n in PingNotices(q, polys, families, devices);
      if q != p {
        assert q in pings;
      }
    }
  }

  /** The family loop of `process_all_alerts`: warned keys and the pushes sent. */
  method FamilyScan(evaluated: seq<Ping>, polys: seq<WarningPolygon>, families: seq<Family>, devices: set<nat>)
    returns (warned: set<nat>, notices: set<FamilyNotice>)
    ensures forall k :: k in warned <==> exists p :: p in evaluated && p.pk == k && InWarnedArea(RingsOf(polys), p)
    ensures forall n :: n in notices <==> exists p :: p in evaluated && n in PingNotices(p, polys, families, devices)
  {
    warned, notices := {}, {};
    var i := 0;
    while i < |evaluated|
      invariant 0 <= i <= |evaluated|
      invariant WarnedExactly(evaluated[..i], warned, RingsOf(polys))
      invariant NoticesExactly(evaluated[..i], notices, polys, families, devices)
    {
      var p := evaluated[i];
      var hit := FirstHit(polys, Position(p));
      assert evaluated[..i + 1] == evaluated[..i] + [p];
      WarnedStep(evaluated[..i], p, warned, RingsOf(polys), hit);
      NoticesStep(evaluated[..i], p, notices, polys, families, devices, hit);
      if hit.Some? {
        warned := warned + {p.pk};
        notices := notices + NoticesFor(p, polys[hit.value].event, families, devices);
      }
      i := i + 1;
    }
    assert evaluated[..i] == evaluated;
  }

  /** The family part: skipped entirely when no warning polygon was gathered; otherwise the
      fan-out plus the overwrite of every evaluated ping's flag. */
  method FamilyStep(feed: Option<seq<Feature>>, table: seq<Ping>, now: int, families: seq<Family>, devices: set<nat>)
    returns (updated: seq<Ping>, notices: set<FamilyNotice>)
    requires UniquePks(table)
    ensures SweepPolygons(feed) == [] ==> updated == table && notices == {}
    ensures |updated| == |table|
    ensures SweepPolygons(feed) != [] ==> forall i :: 0 <= i < |table| ==>
      && updated[i] == table[i].(inWarnedArea := updated[i].inWarnedArea)
      && (IsEvaluated(table, Cutoff(now), table[i]) ==>
            updated[i].inWarnedArea == InWarnedArea(RingsOf(SweepPolygons(feed)), table[i]))
      && (!IsEvaluated(table, Cutoff(now), table[i]) ==> updated[i] == table[i])
    ensures forall n :: n in notices <==>
      exists p :: p in Evaluated(table, Cutoff(now)) && n in PingNotices(p, SweepPolygons(feed), families, devices)
  {
    var polys := SweepPolygons(feed);
    if polys == [] {
      return table, {};
    }
    var evaluated := Evaluated(table, Cutoff(now));
    var warned;
    warned, notices := FamilyScan(evaluated, polys, families, devices);
    updated := ApplyFlags(table, PksOf(evaluated), warned);
    forall i | 0 <= i < |table|
      ensures IsEvaluated(table, Cutoff(now), table[i]) ==>
                updated[i].inWarnedArea == InWarnedArea(RingsOf(polys), table[i])
      ensures !IsEvaluated(table, Cutoff(now), table[i]) ==> updated[i] == table[i]
    {
      KeyDeterminesRow(table, Cutoff(now), evaluated, i);
    }
  }

  /** `process_all_alerts`: the personal part, then the family part. */
  method ProcessAllAlerts(users: seq<User>, out: Outbox, fetch: Fetch, sendOk: nat -> bool,
                          feed: Option<seq<Feature>>, table: seq<Ping>, now: int,
                          families: seq<Family>, devices: set<nat>)
    returns (out': Outbox, table': seq<Ping>, notices: set<FamilyNotice>)
    requires UniquePks(table)
    ensures out' == PersonalSweep(users, out, fetch, sendOk)
    ensures SweepPolygons(feed) == [] ==> table' == table && notices == {}
    ensures |table'| == |table|
    ensures SweepPolygons(feed) != [] ==> forall i :: 0 <= i < |table| ==>
      && table'[i] == table[i].(inWarnedArea := table'[i].inWarnedArea)
      && (IsEvaluated(table, Cutoff(now), table[i]) ==>
            table'[i].inWarnedArea == InWarnedArea(RingsOf(SweepPolygons(feed)), table[i]))
      && (!IsEvaluated(table, Cutoff(now), table[i]) ==> table'[i] == table[i])
    ensures forall n :: n in notices <==>
      exists p :: p in Evaluated(table, Cutoff(now)) && n in PingNotices(p, SweepPolygons(feed), families, devices)
  {
    out' := PersonalSweep(users, out, fetch, sendOk);
    table', notices := FamilyStep(feed, table, now, families, devices);
  }
}
