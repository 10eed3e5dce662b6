/** Types shared by every module of the project. */
module Common {

  datatype Option<+T> = None | Some(value: T)

  function Max(x: int, y: int): int {
    if x < y then y else x
  }

  /** Strictly ascending, hence free of duplicates. */
  ghost predicate Ascending(xs: seq<int>) {
    forall i, j :: 0 <= i < j < |xs| ==> xs[i] < xs[j]
  }

  function LowerChar(c: char): char {
    if 'A' <= c <= 'Z' then c + 32 as char else c
  }

  /** ASCII case folding of hashes and addresses. */
  function Lower(s: string): (r: string)
    ensures |r| == |s|
  {
    seq(|s|, i requires 0 <= i < |s| => LowerChar(s[i]))
  }

  function ToSet(xs: seq<int>): set<int> { set x | x in xs }

  lemma Enumerated(xs: set<int>) returns (slots: seq<int>)
    ensures ToSet(slots) == xs
  {
    slots := [];
    var rest := xs;
    while exists x :: x in rest
      invariant ToSet(slots) + rest == xs
      decreases |rest|
    {
      var x :| x in rest;
      assert ToSet(slots + [x]) == ToSet(slots) + {x};
      slots, rest := slots + [x], rest - {x};
    }
    assert rest == {};
  }
}
