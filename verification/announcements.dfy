/** Site announcements: the middleware that shows each user the latest active announcement at
    most once (`pages/middleware.py`), and the admin list's message summary (`pages/admin.py`). */
module Announcements {
  import opened Wrappers

  datatype Announcement = Announcement(identifier: string, message: string, active: bool, createdAt: int)

  /** A profile's stored seen-identifiers value: a JSON list, or any other JSON value. */
  datatype Seen = SeenList(ids: seq<string>) | NotAList

  /** The visitor as the middleware sees them. */
  datatype Visitor = Anonymous | WithoutProfile | WithProfile(seen: Seen)

  /** The newest active announcement; among equally new ones the model takes the first. */
  function LatestActive(anns: seq<Announcement>): (r: Option<Announcement>)
    ensures r.None? <==> forall i :: 0 <= i < |anns| ==> !anns[i].active
    ensures r.Some? ==> r.value in anns && r.value.active
    ensures r.Some? ==> forall i :: 0 <= i < |anns| && anns[i].active ==> anns[i].createdAt <= r.value.createdAt
  {
    if |anns| == 0 then None
    else
      var rest := LatestActive(anns[1..]);
      assert forall i :: 0 < i < |anns| ==> anns[i] == anns[1..][i - 1];
      if !anns[0].active then rest
      else if rest.None? || rest.value.createdAt <= anns[0].createdAt then Some(anns[0])
      else rest
  }

  datatype Visit = Visit(shown: Option<Announcement>, visitor: Visitor)

  /** The seen list as the middleware reads it: anything that is not a list counts as empty. */
  function SeenIds(seen: Seen): seq<string>
  {
    if seen.SeenList? then seen.ids else []
  }

  /** One request through the middleware. Only a logged-in visitor with a profile can be shown
      anything; the announcement is shown when its identifier is not yet in the seen list, and
      the identifier is then appended and saved. */
  function HandleRequest(visitor: Visitor, anns: seq<Announcement>): (r: Visit)
    ensures !visitor.WithProfile? ==> r == Visit(None, visitor)
    ensures LatestActive(anns).None? ==> r == Visit(None, visitor)
    ensures r.shown.Some? <==>
      visitor.WithProfile? && LatestActive(anns).Some? && LatestActive(anns).value.identifier !in SeenIds(visitor.seen)
    ensures r.shown.Some? ==>
      && r.shown == LatestActive(anns)
      && r.visitor == WithProfile(SeenList(SeenIds(visitor.seen) + [r.shown.value.identifier]))
    ensures r.shown.None? ==> r.visitor == visitor
  {
    match visitor
    case Anonymous => Visit(None, visitor)
    case WithoutProfile => Visit(None, visitor)
    case WithProfile(seen) =>
      match LatestActive(anns)
      case None => Visit(None, visitor)
      case Some(a) =>
        var ids := SeenIds(seen);
        if a.identifier in ids then Visit(None, visitor)
        else Visit(Some(a), WithProfile(SeenList(ids + [a.identifier])))
  }

  /** A second identical request shows nothing. */
  lemma ShownOnce(visitor: Visitor, anns: seq<Announcement>)
    ensures HandleRequest(HandleRequest(visitor, anns).visitor, anns).shown.None?
  {
    var first := HandleRequest(visitor, anns);
    if first.shown.Some? {
      var ids := first.visitor.seen.ids;
      assert ids[|ids| - 1] == first.shown.value.identifier;
    }
  }

  predicate NoRepeats(ids: seq<string>)
  {
    forall i, j :: 0 <= i < j < |ids| ==> ids[i] != ids[j]
  }

  /** The seen list only grows at its end, and an identifier is never added twice. */
  lemma SeenOnlyGrows(visitor: Visitor, anns: seq<Announcement>)
    requires visitor.WithProfile?
    ensures var after := HandleRequest(visitor, anns).visitor;
      && after.WithProfile?
      && SeenIds(visitor.seen) <= SeenIds(after.seen)
      && (NoRepeats(SeenIds(visitor.seen)) ==> NoRepeats(SeenIds(after.seen)))
  {
    var r := HandleRequest(visitor, anns);
    if r.shown.Some? {
      var before := SeenIds(visitor.seen);
      var ids := SeenIds(r.visitor.seen);
      assert ids == before + [r.shown.value.identifier];
      assert forall i :: 0 <= i < |before| ==> ids[i] == before[i];
    }
  }

  // ---------------------------------------------------------------------------------------
  // Admin summary

  const SummaryLength: nat := 75

  const Ellipsis: string := "..."

  /** `message_summary`: messages longer than 75 characters are cut to 75 and marked. */
  function MessageSummary(message: string): (r: string)
    ensures |r| <= SummaryLength + |Ellipsis|
    ensures |message| <= SummaryLength ==> r == message
    ensures |message| > SummaryLength + |Ellipsis| ==> |r| < |message|
    ensures |message| > SummaryLength ==> |r| == SummaryLength + |Ellipsis| && r[SummaryLength..] == Ellipsis
    ensures var n := if |message| <= SummaryLength then |message| else SummaryLength;
            n <= |r| && r[..n] == message[..n]
  {
    if |message| > SummaryLength then message[..SummaryLength] + Ellipsis else message
  }
}
