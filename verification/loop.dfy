/** The shape of the `for` loop in `Parser.parse` (fsm/parser.py), apart from what one line
    does: each line in turn goes to a step that either yields the next state or raises, and
    the first raise ends the loop. Line numbers count on from `num`. */
module Loop {
  import opened Base

  function Fold<S, E>(step: (S, string, nat) -> Result<S, E>, s: S, lines: seq<string>, num: nat): Result<S, E>
    decreases |lines|
  {
    if lines == [] then Ok(s)
    else
      match step(s, lines[0], num)
      case Err(e) => Err(e)
      case Ok(t) => Fold(step, t, lines[1..], num + 1)
  }

  /** Running the loop over two pieces one after the other, the second numbered on from the
      first, is running it over the whole; a piece that raises leaves the rest unread. */
  lemma {:induction false} FoldAppend<S, E>(step: (S, string, nat) -> Result<S, E>, s: S, a: seq<string>, b: seq<string>, num: nat)
    ensures Fold(step, s, a + b, num) ==
      match Fold(step, s, a, num)
      case Err(e) => Err(e)
      case Ok(t) => Fold(step, t, b, num + |a|)
    decreases |a|
  {
    if a == [] {
      assert a + b == b;
    } else {
      assert (a + b)[0] == a[0] && (a + b)[1..] == a[1..] + b;
      match step(s, a[0], num)
      case Err(e) =>
      case Ok(t) =>
        FoldAppend(step, t, a[1..], b, num + 1);
    }
  }

  /** A relation between states that every accepted line respects, and that is reflexive and
      transitive, holds between the first state and the last. */
  lemma {:induction false} FoldKeeps<S(!new), E>(step: (S, string, nat) -> Result<S, E>, rel: (S, S) -> bool, s: S, lines: seq<string>, num: nat)
    requires forall x :: rel(x, x)
    requires forall x, y, z :: rel(x, y) && rel(y, z) ==> rel(x, z)
    requires forall x, l, n :: step(x, l, n).Ok? ==> rel(x, step(x, l, n).value)
    ensures Fold(step, s, lines, num).Ok? ==> rel(s, Fold(step, s, lines, num).value)
    decreases |lines|
  {
    if lines == [] {
      assert rel(s, s);
    } else {
      match step(s, lines[0], num)
      case Err(e) =>
      case Ok(t) =>
        FoldKeeps(step, rel, t, lines[1..], num + 1);
        var r := Fold(step, t, lines[1..], num + 1);
        assert Fold(step, s, lines, num) == r;
        if r.Ok? {
          assert rel(s, t) && rel(t, r.value);
        }
    }
  }

  /** An error the loop ends with is an error of one of its steps: when every raise a step can
      make is acceptable for the number of its line, so is the loop's, for the number of a
      line of the piece. */
  lemma {:induction false} FoldErr<S(!new), E>(step: (S, string, nat) -> Result<S, E>, fine: (E, nat) -> bool, s: S, lines: seq<string>, num: nat)
    requires forall x, l, n :: step(x, l, n).Err? ==> fine(step(x, l, n).error, n)
    ensures Fold(step, s, lines, num).Err? ==>
      exists n :: num <= n < num + |lines| && fine(Fold(step, s, lines, num).error, n)
    decreases |lines|
  {
    if lines != [] {
      match step(s, lines[0], num)
      case Err(e) =>
        assert fine(e, num);
      case Ok(t) =>
        FoldErr(step, fine, t, lines[1..], num + 1);
    }
  }
}
