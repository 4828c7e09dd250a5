/** The snake's body as a head-first sequence of cells: the shape every
    reachable body has, the scan that detects a self-collision, and the
    rejection sampling that places food off the body. */
module Body {
  import opened Grid

  /** A body the game can produce: non-empty, on the grid, no cell twice,
      and each segment one unit step from the next. */
  ghost predicate WellFormed(body: seq<Pos>) {
    |body| >= 1
    && (forall i :: 0 <= i < |body| ==> InBounds(body[i]))
    && (forall i, j :: 0 <= i < j < |body| ==> body[i] != body[j])
    && (forall i :: 0 <= i < |body| - 1 ==> Adjacent(body[i], body[i + 1]))
  }

  /** The self-collision scan of a tick: walks every segment, the tail
      included, and reports whether `p` is one of them. */
  method Contains(body: seq<Pos>, p: Pos) returns (hit: bool)
    ensures hit <==> p in body
  {
    var i := 0;
    while i < |body|
      invariant 0 <= i <= |body|
      invariant forall k :: 0 <= k < i ==> body[k] != p
    {
      if body[i] == p {
        return true;
      }
      i := i + 1;
    }
    return false;
  }

  /** Rejection sampling ends within the supplied stream of random cells:
      some draw is off the body. */
  predicate HasFree(draws: seq<Pos>, body: seq<Pos>) {
    exists i :: 0 <= i < |draws| && draws[i] !in body
  }

  /** The position, in the stream of random cells, of the draw that
      rejection sampling keeps: the first one that is off the body. */
  function FirstFreeAt(draws: seq<Pos>, body: seq<Pos>): (k: nat)
    requires HasFree(draws, body)
    ensures k < |draws| && draws[k] !in body
    ensures forall j :: 0 <= j < k ==> draws[j] in body
  {
    if draws[0] !in body then 0
    else
      assert HasFree(draws[1..], body) by {
        var i :| 0 <= i < |draws| && draws[i] !in body;
        assert draws[1..][i - 1] == draws[i];
      }
      1 + FirstFreeAt(draws[1..], body)
  }

  /** Prepending an adjacent cell that is on the grid and off the body keeps
      the body well formed: the growing half of a tick. */
  lemma GrowKeepsWellFormed(body: seq<Pos>, head: Pos)
    requires WellFormed(body)
    requires InBounds(head) && head !in body && Adjacent(head, body[0])
    ensures WellFormed([head] + body)
  {
  }

  /** Dropping the tail of a body of two or more segments keeps it well
      formed. */
  lemma DropTailKeepsWellFormed(body: seq<Pos>)
    requires WellFormed(body) && |body| >= 2
    ensures WellFormed(body[..|body| - 1])
  {
  }

  /** A tick that does not eat: the new head is prepended and the old tail
      dropped, and the body stays well formed and keeps its length. */
  lemma MoveKeepsWellFormed(body: seq<Pos>, head: Pos)
    requires WellFormed(body)
    requires InBounds(head) && head !in body && Adjacent(head, body[0])
    ensures WellFormed([head] + body[..|body| - 1])
    ensures |[head] + body[..|body| - 1]| == |body|
  {
    GrowKeepsWellFormed(body, head);
    var grown := [head] + body;
    assert [head] + body[..|body| - 1] == grown[..|grown| - 1];
    DropTailKeepsWellFormed(grown);
  }
}
