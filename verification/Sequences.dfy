// Parts of a sequence in its order.
module Sequences {

  // `part` consists of the elements of `whole` at these positions, from left to right.
  ghost predicate PickedAt<T>(part: seq<T>, whole: seq<T>, positions: seq<nat>) {
    && |positions| == |part|
    && (forall i :: 0 <= i < |positions| ==> positions[i] < |whole| && part[i] == whole[positions[i]])
    && (forall i, j :: 0 <= i < j < |positions| ==> positions[i] < positions[j])
  }

  ghost predicate InOrder<T>(part: seq<T>, whole: seq<T>) {
    exists positions :: PickedAt(part, whole, positions)
  }

  lemma NothingIsInOrder<T>(whole: seq<T>)
    ensures InOrder([], whole)
  {
    assert PickedAt([], whole, []);
  }

  // One more element, whether it is picked or not.
  lemma OneMoreInOrder<T>(part: seq<T>, whole: seq<T>, x: T)
    requires InOrder(part, whole)
    ensures InOrder(part, whole + [x]) && InOrder(part + [x], whole + [x])
  {
    var positions :| PickedAt(part, whole, positions);
    var end: nat := |whole|;
    assert PickedAt(part, whole + [x], positions);
    assert PickedAt(part + [x], whole + [x], positions + [end]);
  }

  // One more element in front.
  lemma OneBeforeInOrder<T>(part: seq<T>, whole: seq<T>, x: T)
    requires InOrder(part, whole)
    ensures InOrder(part, [x] + whole) && InOrder([x] + part, [x] + whole)
  {
    var positions :| PickedAt(part, whole, positions);
    var first: nat := 0;
    var shifted: seq<nat> := seq(|positions|, i requires 0 <= i < |positions| => positions[i] + 1);
    assert PickedAt(part, [x] + whole, shifted);
    assert PickedAt([x] + part, [x] + whole, [first] + shifted);
  }
}
