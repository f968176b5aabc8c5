/** The card of `src/frontend/components/EventCard.js`: the description it shows and the
    page it links to. */
module EventCard {
  import EventRoutes

  /** `description.length > 100 ? description.substring(0, 100) + '...' : description`. */
  function Truncate(d: string): (r: string)
    ensures |d| <= 100 ==> r == d
    ensures |d| > 100 ==> |r| == 103 && r[..100] == d[..100] && r[100..] == "..."
    ensures |r| <= 103
  {
    if |d| > 100 then d[..100] + "..." else d
  }

  /** Truncating a truncated description changes nothing. */
  lemma TruncateIdempotent(d: string)
    ensures Truncate(Truncate(d)) == Truncate(d)
  {
    if |d| > 100 {
      var t := Truncate(d);
      assert t[..100] + "..." == t;
    }
  }

  /** On the home page the card shows the public list's descriptions: a long one comes
      out as the list made it, and a short one that the list's ellipsis pushed past 100
      characters is cut again. */
  lemma CardOverPublicList(d: string)
    ensures |d| >= 100 ==> Truncate(EventRoutes.ListedDescription(d)) == EventRoutes.ListedDescription(d)
    ensures 0 < |d| <= 97 ==> Truncate(EventRoutes.ListedDescription(d)) == d + "..."
    ensures 97 < |d| < 100 ==> Truncate(EventRoutes.ListedDescription(d)) == (d + "...")[..100] + "..."
  {
    var l := EventRoutes.ListedDescription(d);
    if |d| >= 100 {
      assert l == d[..100] + "...";
      assert l[..100] + "..." == l;
    } else if |d| > 0 {
      assert l == d + "...";
    }
  }

  /** `/event/${event._id}`. */
  function LinkTarget(id: string): (path: string)
    ensures |path| == |id| + 7 && path[..7] == "/event/" && path[7..] == id
  {
    "/event/" + id
  }

  /** Distinct events link to distinct pages. */
  lemma LinkTargetInjective(a: string, b: string)
    ensures LinkTarget(a) == LinkTarget(b) ==> a == b
  {
    if LinkTarget(a) == LinkTarget(b) {
      assert LinkTarget(a)[7..] == LinkTarget(b)[7..];
    }
  }
}
