/** The saved-location rules of the account settings page (`accounts/views.py`): the location
    cap, adding a geocoded location, choosing the default, deleting, toggling notifications,
    and the listing order. A profile's locations are a sequence in primary-key order. */
module AccountRules {
  import opened Wrappers
  import opened Text
  import opened AlertSweep

  /** Premium access allows three saved locations, otherwise one. */
  const PremiumLocationCap: nat := 3
  const BasicLocationCap: nat := 1

  function MaxLocations(premium: bool): (r: nat)
    ensures r == if premium then 3 else 1
  {
    if premium then PremiumLocationCap else BasicLocationCap
  }

  /** Primary keys strictly increase along the sequence. */
  predicate PkSorted(locs: seq<Location>)
  {
    forall i, j :: 0 <= i < j < |locs| ==> locs[i].pk < locs[j].pk
  }

  predicate HasDefault(locs: seq<Location>)
  {
    exists i :: 0 <= i < |locs| && locs[i].isDefault
  }

  predicate AtMostOneDefault(locs: seq<Location>)
  {
    forall i, j :: 0 <= i < |locs| && 0 <= j < |locs| && locs[i].isDefault && locs[j].isDefault ==> i == j
  }

  /** The state every operation below keeps: keys in order, and a non-empty list has exactly
      one default. */
  predicate WellFormed(locs: seq<Location>)
  {
    PkSorted(locs) && AtMostOneDefault(locs) && (|locs| > 0 ==> HasDefault(locs))
  }

  function IndexOfPk(locs: seq<Location>, pk: nat): (r: Option<nat>)
    ensures r.None? <==> forall i :: 0 <= i < |locs| ==> locs[i].pk != pk
    ensures r.Some? ==> r.value < |locs| && locs[r.value].pk == pk
  {
    if |locs| == 0 then None
    else if locs[0].pk == pk then Some(0)
    else
      var rest := IndexOfPk(locs[1..], pk);
      assert forall i :: 0 < i < |locs| ==> locs[i] == locs[1..][i - 1];
      if rest.None? then None else Some(rest.value + 1)
  }

  // ---------------------------------------------------------------------------------------
  // Adding a location

  /** What the geocoder answered for the stripped query. */
  datatype Geocode = Found(address: string, latitude: int, longitude: int) | NoMatch | GeocodeError

  datatype AddOutcome = Added | LimitReached | EmptyQuery | NotGeocoded

  datatype AddResult = AddResult(locs: seq<Location>, outcome: AddOutcome)

  /** The manual-add branch. `newPk` is the key the database issues, larger than every key in
      use. */
  function AddLocation(locs: seq<Location>, premium: bool, query: string, geocode: Geocode, newPk: nat): (r: AddResult)
    requires forall i :: 0 <= i < |locs| ==> locs[i].pk < newPk
    ensures |locs| >= MaxLocations(premium) ==> r == AddResult(locs, LimitReached)
    ensures r.outcome == Added <==> |locs| < MaxLocations(premium) && Strip(query) != "" && geocode.Found?
    ensures r.outcome != Added ==> r.locs == locs
    ensures r.outcome == Added ==>
      && |r.locs| == |locs| + 1 && r.locs[..|locs|] == locs
      && r.locs[|locs|] == Location(newPk, geocode.address, geocode.latitude, geocode.longitude, !HasDefault(locs), true)
    ensures WellFormed(locs) ==> WellFormed(r.locs)
  {
    if |locs| >= MaxLocations(premium) then AddResult(locs, LimitReached)
    else if Strip(query) == "" then AddResult(locs, EmptyQuery)
    else if !geocode.Found? then AddResult(locs, NotGeocoded)
    else
      var l := Location(newPk, geocode.address, geocode.latitude, geocode.longitude, !HasDefault(locs), true);
      var r := locs + [l];
      assert r[..|locs|] == locs;
      assert HasDefault(r) by {
        if HasDefault(locs) {
          var i :| 0 <= i < |locs| && locs[i].isDefault;
          assert r[i] == locs[i];
        } else {
          assert r[|locs|].isDefault;
        }
      }
      AddResult(r, Added)
  }

  // ---------------------------------------------------------------------------------------
  // Choosing the default

  /** The set-default branch. Inside one transaction every flag is cleared and then the chosen
      row is looked up; a missing or unparsable key raises and rolls the clearing back. */
  function SetDefault(locs: seq<Location>, target: Option<nat>): (r: seq<Location>)
    ensures |r| == |locs|
    ensures (target.None? || forall i :: 0 <= i < |locs| ==> locs[i].pk != target.value) ==> r == locs
    ensures target.Some? && (exists i :: 0 <= i < |locs| && locs[i].pk == target.value) ==>
      forall i :: 0 <= i < |locs| ==> r[i].isDefault == (locs[i].pk == target.value)
    ensures forall i :: 0 <= i < |locs| ==> r[i] == locs[i].(isDefault := r[i].isDefault)
  {
    if target.None? || IndexOfPk(locs, target.value).None? then locs
    else seq(|locs|, i requires 0 <= i < |locs| => locs[i].(isDefault := locs[i].pk == target.value))
  }

  /** After a successful set-default exactly the chosen location is default. */
  lemma SetDefaultKeepsWellFormed(locs: seq<Location>, target: Option<nat>)
    requires WellFormed(locs)
    ensures WellFormed(SetDefault(locs, target))
  {
    var r := SetDefault(locs, target);
    if target.Some? && IndexOfPk(locs, target.value).Some? {
      var k := IndexOfPk(locs, target.value).value;
      assert r[k].isDefault;
    }
  }

  // ---------------------------------------------------------------------------------------
  // Deleting

  function RemoveAt(locs: seq<Location>, k: nat): (r: seq<Location>)
    requires k < |locs|
    ensures |r| == |locs| - 1
    ensures forall i :: 0 <= i < k ==> r[i] == locs[i]
    ensures forall i :: k <= i < |r| ==> r[i] == locs[i + 1]
  {
    locs[..k] + locs[k + 1..]
  }

  /** Index of the smallest key. */
  function MinPkIndex(locs: seq<Location>): (r: nat)
    requires |locs| > 0
    ensures r < |locs| && forall i :: 0 <= i < |locs| ==> locs[r].pk <= locs[i].pk
  {
    if |locs| == 1 then 0
    else
      var rest := MinPkIndex(locs[1..]);
      assert forall i :: 0 < i < |locs| ==> locs[i] == locs[1..][i - 1];
      if locs[0].pk <= locs[rest + 1].pk then 0 else rest + 1
  }

  /** The delete branch: an unknown key changes nothing; deleting the default makes the
      remaining location with the smallest key the default; deleting any other location
      changes no flag. */
  function DeleteLocation(locs: seq<Location>, target: Option<nat>): (r: seq<Location>)
    ensures (target.None? || forall i :: 0 <= i < |locs| ==> locs[i].pk != target.value) ==> r == locs
    ensures PkSorted(locs) ==> forall k :: 0 <= k < |locs| && target == Some(locs[k].pk) ==>
      DeletedAt(locs, k, r)
  {
    if target.None? then locs
    else
      match IndexOfPk(locs, target.value)
      case None => locs
      case Some(k) =>
        var rest := RemoveAt(locs, k);
        assert PkSorted(locs) ==> forall j :: 0 <= j < |locs| && locs[j].pk == locs[k].pk ==> j == k;
        if locs[k].isDefault && |rest| > 0 then
          var m := MinPkIndex(rest);
          rest[m := rest[m].(isDefault := true)]
        else rest
  }

  /** `r` is `locs` without its `k`-th row; if that row was the default and another row
      remains, the remaining row with the smallest key has become the default. */
  ghost predicate DeletedAt(locs: seq<Location>, k: nat, r: seq<Location>)
    requires k < |locs|
  {
    var rest := RemoveAt(locs, k);
    if locs[k].isDefault && |rest| > 0
    then exists m :: 0 <= m < |rest| && (forall i :: 0 <= i < |rest| ==> rest[m].pk <= rest[i].pk)
                     && r == rest[m := rest[m].(isDefault := true)]
    else r == rest
  }

  lemma RemoveKeepsSorted(locs: seq<Location>, k: nat)
    requires k < |locs| && PkSorted(locs)
    ensures PkSorted(RemoveAt(locs, k))
  {
    var rest := RemoveAt(locs, k);
    forall i, j | 0 <= i < j < |rest|
      ensures rest[i].pk < rest[j].pk
    {
      var i', j' := if i < k then i else i + 1, if j < k then j else j + 1;
      assert rest[i] == locs[i'] && rest[j] == locs[j'];
    }
  }

  /** Removing a row that is not the default keeps the one default. */
  lemma RemoveOtherKeepsDefault(locs: seq<Location>, k: nat)
    requires k < |locs| && |locs| > 0 && HasDefault(locs) && AtMostOneDefault(locs) && !locs[k].isDefault
    ensures HasDefault(RemoveAt(locs, k)) && AtMostOneDefault(RemoveAt(locs, k))
  {
    var rest := RemoveAt(locs, k);
    var d :| 0 <= d < |locs| && locs[d].isDefault;
    var d' := if d < k then d else d - 1;
    assert rest[d'] == locs[d];
    forall i, j | 0 <= i < |rest| && 0 <= j < |rest| && rest[i].isDefault && rest[j].isDefault
      ensures i == j
    {
      var i', j' := if i < k then i else i + 1, if j < k then j else j + 1;
      assert rest[i] == locs[i'] && rest[j] == locs[j'];
    }
  }

  /** Removing the default and promoting one remaining row leaves exactly that row default. */
  lemma RemoveDefaultPromotes(locs: seq<Location>, k: nat, m: nat)
    requires k < |locs| && AtMostOneDefault(locs) && locs[k].isDefault && m < |locs| - 1
    ensures var rest := RemoveAt(locs, k);
            var r := rest[m := rest[m].(isDefault := true)];
            HasDefault(r) && AtMostOneDefault(r)
  {
    var rest := RemoveAt(locs, k);
    var r := rest[m := rest[m].(isDefault := true)];
    forall i | 0 <= i < |rest| && i != m
      ensures !r[i].isDefault
    {
      var i' := if i < k then i else i + 1;
      assert rest[i] == locs[i'] && i' != k;
    }
    assert r[m].isDefault;
  }

  lemma DeleteKeepsWellFormed(locs: seq<Location>, target: Option<nat>)
    requires WellFormed(locs)
    ensures WellFormed(DeleteLocation(locs, target))
  {
    if target.Some? && IndexOfPk(locs, target.value).Some? {
      var k := IndexOfPk(locs, target.value).value;
      var rest := RemoveAt(locs, k);
      RemoveKeepsSorted(locs, k);
      if !locs[k].isDefault {
        RemoveOtherKeepsDefault(locs, k);
      } else if |rest| > 0 {
        var m := MinPkIndex(rest);
        RemoveDefaultPromotes(locs, k, m);
        assert DeleteLocation(locs, target) == rest[m := rest[m].(isDefault := true)];
      }
    }
  }

  // ---------------------------------------------------------------------------------------
  // Notifications toggle

  /** The toggle branch: flips the notification flag of exactly the chosen location; a missing
      or unknown key changes nothing. */
  function ToggleNotifications(locs: seq<Location>, target: Option<nat>): (r: seq<Location>)
    ensures |r| == |locs|
    ensures forall i :: 0 <= i < |locs| ==>
      if target == Some(locs[i].pk)
      then r[i] == locs[i].(receiveNotifications := !locs[i].receiveNotifications)
      else r[i] == locs[i]
  {
    seq(|locs|, i requires 0 <= i < |locs| =>
      if target == Some(locs[i].pk) then locs[i].(receiveNotifications := !locs[i].receiveNotifications) else locs[i])
  }

  lemma ToggleKeepsWellFormed(locs: seq<Location>, target: Option<nat>)
    requires WellFormed(locs)
    ensures WellFormed(ToggleNotifications(locs, target))
  {
    var r := ToggleNotifications(locs, target);
    if |locs| > 0 {
      var d :| 0 <= d < |locs| && locs[d].isDefault;
      assert r[d].isDefault;
    }
  }

  /** Toggling the same location twice restores the list. */
  lemma ToggleTwice(locs: seq<Location>, target: Option<nat>)
    ensures ToggleNotifications(ToggleNotifications(locs, target), target) == locs
  {
    var r := ToggleNotifications(ToggleNotifications(locs, target), target);
    assert forall i :: 0 <= i < |locs| ==> r[i] == locs[i];
  }

  // ---------------------------------------------------------------------------------------
  // Listing order

  /** The locations with the given default flag, in their original order. */
  function Keep(locs: seq<Location>, isDefault: bool): (r: seq<Location>)
    ensures forall l :: l in r <==> l in locs && l.isDefault == isDefault
  {
    if |locs| == 0 then []
    else
      var rest := Keep(locs[1..], isDefault);
      assert forall l :: l in locs <==> l == locs[0] || l in locs[1..];
      if locs[0].isDefault == isDefault then [locs[0]] + rest else rest
  }

  /** Filtering keeps the key order. */
  lemma {:induction false} KeepSorted(locs: seq<Location>, isDefault: bool)
    ensures PkSorted(locs) ==> PkSorted(Keep(locs, isDefault))
  {
    if |locs| > 0 && PkSorted(locs) {
      var tail := locs[1..];
      assert PkSorted(tail);
      KeepSorted(tail, isDefault);
      var rest := Keep(tail, isDefault);
      if locs[0].isDefault == isDefault {
        forall l | l in rest ensures locs[0].pk < l.pk {
          assert l in tail;
        }
        ConsSorted(locs[0], rest);
      }
    }
  }

  /** A row with a key below every key of a sorted list can go in front of it. */
  lemma ConsSorted(x: Location, rest: seq<Location>)
    requires PkSorted(rest) && forall l :: l in rest ==> x.pk < l.pk
    ensures PkSorted([x] + rest)
  {
    var r := [x] + rest;
    forall i, j | 0 <= i < j < |r| ensures r[i].pk < r[j].pk {
      assert r[j] == rest[j - 1] && r[j] in rest;
      if i > 0 {
        assert r[i] == rest[i - 1];
      }
    }
  }

  lemma {:induction false} KeepSplits(locs: seq<Location>)
    ensures multiset(Keep(locs, true)) + multiset(Keep(locs, false)) == multiset(locs)
  {
    if |locs| > 0 {
      var t := locs[1..];
      KeepSplits(t);
      assert locs == [locs[0]] + t;
      assert multiset(locs) == multiset{locs[0]} + multiset(t);
      if locs[0].isDefault {
        assert Keep(locs, true) == [locs[0]] + Keep(t, true) && Keep(locs, false) == Keep(t, false);
      } else {
        assert Keep(locs, false) == [locs[0]] + Keep(t, false) && Keep(locs, true) == Keep(t, true);
      }
    }
  }

  /** The listing order: default first, then by key. */
  predicate ListedBefore(a: Location, b: Location)
  {
    (a.isDefault && !b.isDefault) || (a.isDefault == b.isDefault && a.pk < b.pk)
  }

  /** The settings page lists the same locations, default first, then by key. */
  function DisplayOrder(locs: seq<Location>): (r: seq<Location>)
    ensures multiset(r) == multiset(locs)
    ensures PkSorted(locs) ==> forall i, j :: 0 <= i < j < |r| ==> ListedBefore(r[i], r[j])
  {
    KeepSplits(locs);
    var d, o := Keep(locs, true), Keep(locs, false);
    KeepSorted(locs, true);
    KeepSorted(locs, false);
    assert forall i :: 0 <= i < |d| ==> d[i] in d;
    assert forall i :: 0 <= i < |o| ==> o[i] in o;
    d + o
  }
}
