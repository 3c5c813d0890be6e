/** The queue-family pair a device is driven through (Meteora/Models/QueueFamilyIndices.cs). */
module QueueFamilies {
  import opened Linq

  /**
   * A read-only record. `isComplete` is only ever true when the two-argument
   * constructor ran; the zero value of the struct is the "not found" answer.
   */
  datatype QueueFamilyIndices = QueueFamilyIndices(graphics: nat, presentation: nat, isComplete: bool)

  /** The two-argument constructor. */
  function Complete(graphics: nat, presentation: nat): (r: QueueFamilyIndices)
    ensures r.graphics == graphics && r.presentation == presentation
    ensures r.isComplete
  {
    QueueFamilyIndices(graphics, presentation, true)
  }

  /** `default(QueueFamilyIndices)`: every field at its zero value. */
  function Default(): (r: QueueFamilyIndices)
    ensures !r.isComplete
    ensures r.graphics == 0 && r.presentation == 0
  {
    QueueFamilyIndices(0, 0, false)
  }

  /** `UniqueIndices`: the pair with a repeat removed, graphics first. */
  function UniqueIndices(q: QueueFamilyIndices): (r: seq<nat>)
    ensures |r| == 1 <==> q.graphics == q.presentation
    ensures |r| == 2 <==> q.graphics != q.presentation
    ensures forall x :: x in r <==> x == q.graphics || x == q.presentation
    ensures forall i, j :: 0 <= i < j < |r| ==> r[i] != r[j]
    ensures r[0] == q.graphics
    ensures q.graphics != q.presentation ==> r[1] == q.presentation
  {
    var pair := [q.graphics, q.presentation];
    assert pair[..1] == [q.graphics];
    assert Distinct(pair[..1]) == [q.graphics];
    Distinct(pair)
  }
}
