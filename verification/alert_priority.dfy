/** The alert priority of `weather/utils.py`: a list of alert event names maps to the highest
    tier present (warning over watch over advisory), and the navbar shows that tier with the
    number of alerts at the user's default location. */
module AlertPriority {
  import opened Wrappers
  import opened Text
  import opened AlertSweep

  datatype Tier = Advisory | Watch | Warning

  /** 0 for no tier; the tiers rank 1, 2 and 3. */
  function Level(t: Option<Tier>): nat
  {
    match t
    case None => 0
    case Some(Advisory) => 1
    case Some(Watch) => 2
    case Some(Warning) => 3
  }

  /** Case-insensitive substring test on an event name. */
  predicate Mentions(event: string, word: string)
  {
    Includes(Lower(event), word)
  }

  ghost predicate Has(event: string, word: string)
  {
    exists i :: OccursAt(word, Lower(event), i)
  }

  /** The tier one event name belongs to. A warning wins over a watch, a watch over an
      advisory; a statement counts as an advisory only when it mentions neither. */
  function Classify(event: string): (r: Option<Tier>)
    ensures r == Some(Warning) <==> Has(event, "warning")
    ensures r == Some(Watch) <==> !Has(event, "warning") && Has(event, "watch")
    ensures r == Some(Advisory) <==>
      (&& !Has(event, "warning") && !Has(event, "watch")
       && (Has(event, "advisory") || Has(event, "statement")))
  {
    IncludesMeansOccurs(Lower(event), "warning");
    IncludesMeansOccurs(Lower(event), "watch");
    IncludesMeansOccurs(Lower(event), "advisory");
    IncludesMeansOccurs(Lower(event), "statement");
    var isWarning := Mentions(event, "warning");
    var isWatch := Mentions(event, "watch");
    var isAdvisory := Mentions(event, "advisory") || (Mentions(event, "statement") && !(isWarning || isWatch));
    if isWarning then Some(Warning)
    else if isWatch then Some(Watch)
    else if isAdvisory then Some(Advisory)
    else None
  }

  /** One iteration of the source loop: a tier replaces the current one only if it ranks
      strictly higher. */
  function Step(current: Option<Tier>, event: string): Option<Tier>
  {
    var c := Classify(event);
    if c.Some? && Level(current) < Level(c) then c else current
  }

  function Scan(current: Option<Tier>, events: seq<string>): (r: Option<Tier>)
    ensures Level(current) <= Level(r)
    ensures r == current || exists i :: 0 <= i < |events| && Classify(events[i]) == r
    ensures forall i :: 0 <= i < |events| ==> Level(Classify(events[i])) <= Level(r)
    decreases |events|
  {
    if |events| == 0 then current
    else
      var r := Scan(Step(current, events[0]), events[1..]);
      assert forall i :: 0 < i < |events| ==> events[i] == events[1..][i - 1];
      r
  }

  /** `determine_alert_priority_from_list`: the highest tier among the events, or `None` when
      the list is empty or no event matches a tier. */
  function DetermineAlertPriority(events: seq<string>): (r: Option<Tier>)
    ensures r.None? <==> forall i :: 0 <= i < |events| ==> Classify(events[i]).None?
    ensures r.Some? ==> exists i :: 0 <= i < |events| && Classify(events[i]) == r
    ensures forall i :: 0 <= i < |events| ==> Level(Classify(events[i])) <= Level(r)
  {
    if |events| == 0 then None else Scan(None, events)
  }

  /** The result depends only on which events occur, not on their order or repetition. */
  lemma {:induction false} PriorityIgnoresOrder(a: seq<string>, b: seq<string>)
    requires forall e :: e in a <==> e in b
    ensures DetermineAlertPriority(a) == DetermineAlertPriority(b)
  {
    var ra, rb := DetermineAlertPriority(a), DetermineAlertPriority(b);
    if ra.Some? {
      var i :| 0 <= i < |a| && Classify(a[i]) == ra;
      assert a[i] in b;
      var j :| 0 <= j < |b| && b[j] == a[i];
      assert Level(ra) <= Level(rb);
    }
    if rb.Some? {
      var j :| 0 <= j < |b| && Classify(b[j]) == rb;
      assert b[j] in a;
      var i :| 0 <= i < |a| && a[i] == b[j];
      assert Level(rb) <= Level(ra);
    }
  }

  /** An event mentioning "warning" ranks as a warning whatever else it mentions. */
  lemma WarningWins(event: string)
    requires Mentions(event, "warning")
    ensures Classify(event) == Some(Warning)
  {
    IncludesMeansOccurs(Lower(event), "warning");
  }

  // ---------------------------------------------------------------------------------------
  // Navbar

  datatype NavbarInfo = NavbarInfo(status: Option<Tier>, count: nat)

  /** The first saved location that is default and has notifications on. */
  function NavbarLocation(locs: seq<Location>): (r: Option<Location>)
    ensures r.None? <==> forall i :: 0 <= i < |locs| ==> !(locs[i].isDefault && locs[i].receiveNotifications)
    ensures r.Some? ==> r.value in locs && r.value.isDefault && r.value.receiveNotifications
  {
    if |locs| == 0 then None
    else if locs[0].isDefault && locs[0].receiveNotifications then Some(locs[0])
    else
      var rest := NavbarLocation(locs[1..]);
      assert forall i :: 0 < i < |locs| ==> locs[i] == locs[1..][i - 1];
      rest
  }

  /** The pure part of `get_user_navbar_alert_info`; the alert fetch for a location's
      (latitude, longitude) is an input. */
  function NavbarAlertInfo(authenticated: bool, hasProfile: bool, locs: seq<Location>,
                           fetch: (int, int) -> seq<string>): (r: NavbarInfo)
    ensures !authenticated ==> r == NavbarInfo(None, 0)
    ensures (!hasProfile || forall l :: l in locs ==> !(l.isDefault && l.receiveNotifications)) ==> r.count == 0 && r.status.None?
    ensures authenticated && hasProfile && NavbarLocation(locs).Some? ==>
      var l := NavbarLocation(locs).value;
      r.count == |fetch(l.latitude, l.longitude)| && r.status == DetermineAlertPriority(fetch(l.latitude, l.longitude))
    ensures r.status.Some? ==> r.count > 0
  {
    if !authenticated || !hasProfile then NavbarInfo(None, 0)
    else
      match NavbarLocation(locs)
      case None => NavbarInfo(None, 0)
      case Some(l) =>
        var alerts := fetch(l.latitude, l.longitude);
        NavbarInfo(DetermineAlertPriority(alerts), |alerts|)
  }

  /** The navbar reports on the first default location with notifications on: its alert
      count and its highest tier. */
  lemma NavbarUsesFirstDefault(hasProfile: bool, locs: seq<Location>, fetch: (int, int) -> seq<string>, k: nat)
    requires hasProfile && k < |locs| && locs[k].isDefault && locs[k].receiveNotifications
    requires forall j :: 0 <= j < k ==> !(locs[j].isDefault && locs[j].receiveNotifications)
    ensures var alerts := fetch(locs[k].latitude, locs[k].longitude);
      NavbarAlertInfo(true, hasProfile, locs, fetch) == NavbarInfo(DetermineAlertPriority(alerts), |alerts|)
  {
    NavbarLocationIsFirst(locs, k);
  }

  lemma {:induction false} NavbarLocationIsFirst(locs: seq<Location>, k: nat)
    requires k < |locs| && locs[k].isDefault && locs[k].receiveNotifications
    requires forall j :: 0 <= j < k ==> !(locs[j].isDefault && locs[j].receiveNotifications)
    ensures NavbarLocation(locs) == Some(locs[k])
  {
    if k > 0 {
      NavbarLocationIsFirst(locs[1..], k - 1);
    }
  }
}
