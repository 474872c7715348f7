/** The service's one pure helper (Shared_Code/Services/CrimeDataService.cs,
    `FormatPolygon`): a boundary serialised as the `poly` form field of the
    provider's polygon query, `lat,lon` pairs joined by `:`. */
module Polygon {
  import opened Models
  import opened Strings

  /** A null string interpolates as the empty string. */
  function Interpolated(s: Option<string>): string
  {
    if s.Some? then s.value else ""
  }

  /** One vertex as `"{Latitude},{Longitude}"`. */
  function PairText(p: BoundaryPoint): string
  {
    Interpolated(p.latitude) + "," + Interpolated(p.longitude)
  }

  /** The vertices' texts, in the boundary's order. */
  function Pairs(boundary: seq<BoundaryPoint>): (r: seq<string>)
    ensures |r| == |boundary|
    ensures forall i :: 0 <= i < |boundary| ==> r[i] == PairText(boundary[i])
  {
    if boundary == [] then [] else [PairText(boundary[0])] + Pairs(boundary[1..])
  }

  /** The vertices of a boundary in which no element is null. */
  function Vertices(boundary: Boundary): (r: Option<seq<BoundaryPoint>>)
    ensures r.Some? ==> |r.value| == |boundary|
  {
    if |boundary| == 0 then Some([])
    else
      var rest := Vertices(boundary[1..]);
      if boundary[0].None? || rest.None? then None
      else Some([boundary[0].value] + rest.value)
  }

  /** The polygon text of a boundary. `None` stands for the
      `NullReferenceException` that reading the coordinates of a null
      element throws. */
  function FormatPolygon(boundary: Option<Boundary>): (r: Option<string>)
    ensures boundary.None? || boundary.value == [] ==> r == Some("")
  {
    if boundary.None? || |boundary.value| == 0 then Some("")
    else
      var ps := Vertices(boundary.value);
      if ps.None? then None else Some(Join(Pairs(ps.value), ':'))
  }

  /** The vertices exist exactly when no element is null, and are then the
      elements in order. */
  lemma {:induction false} VerticesPresent(boundary: Boundary)
    ensures Vertices(boundary).Some? <==> forall i :: 0 <= i < |boundary| ==> boundary[i].Some?
    ensures Vertices(boundary).Some? ==>
              forall i :: 0 <= i < |boundary| ==> Vertices(boundary).value[i] == boundary[i].value
  {
    if |boundary| > 0 {
      VerticesPresent(boundary[1..]);
      assert forall i :: 1 <= i < |boundary| ==> boundary[i] == boundary[1..][i - 1];
    }
  }

  /** A non-empty boundary fails to format exactly when one of its elements
      is null. */
  lemma FormatPolygonFails(boundary: Boundary)
    requires |boundary| > 0
    ensures FormatPolygon(Some(boundary)).None? <==> exists i :: 0 <= i < |boundary| && boundary[i].None?
  {
    VerticesPresent(boundary);
  }

  /** No vertex coordinate contains the `:` separator. */
  predicate ColonFree(boundary: Boundary)
  {
    forall i :: 0 <= i < |boundary| && boundary[i].Some? ==>
      ':' !in Interpolated(boundary[i].value.latitude) && ':' !in Interpolated(boundary[i].value.longitude)
  }

  lemma PairTextColonFree(p: BoundaryPoint)
    requires ':' !in Interpolated(p.latitude) && ':' !in Interpolated(p.longitude)
    ensures ':' !in PairText(p)
  {
    var t := PairText(p);
    forall k | 0 <= k < |t| ensures t[k] != ':' {
      var a := Interpolated(p.latitude);
      if k < |a| { assert t[k] == a[k]; }
      else if k > |a| { assert t[k] == Interpolated(p.longitude)[k - |a| - 1]; }
    }
  }

  /** For a non-empty boundary without null elements whose coordinates carry
      no `:`, splitting the polygon text on `:` recovers each vertex's
      `lat,lon` text in input order, and the text holds exactly one
      separator fewer than there are vertices. */
  lemma FormatPolygonPairs(boundary: Boundary)
    requires |boundary| > 0
    requires forall i :: 0 <= i < |boundary| ==> boundary[i].Some?
    requires ColonFree(boundary)
    ensures FormatPolygon(Some(boundary)).Some?
    ensures var poly := FormatPolygon(Some(boundary)).value;
      && |Split(poly, ':')| == |boundary|
      && (forall i :: 0 <= i < |boundary| ==> Split(poly, ':')[i] == PairText(boundary[i].value))
      && Count(poly, ':') == |boundary| - 1
  {
    VerticesPresent(boundary);
    var parts := Pairs(Vertices(boundary).value);
    forall i | 0 <= i < |parts| ensures ':' !in parts[i] {
      PairTextColonFree(boundary[i].value);
    }
    SplitJoin(parts, ':');
    JoinSeparatorCount(parts, ':');
  }
}
