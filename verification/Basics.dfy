/** Small vocabulary shared by the whole model. */
module Basics {

  datatype Option<+T> = None | Some(value: T)

  /** A short text that is only ever compared as a whole: an id, a file name, a line. */
  datatype Name = Name(text: string)

  /** How a write or a command can go; one that is reported as failed may yet have taken effect. */
  datatype Fate = Done | Failed(effect: bool)

  /** The newest `n` elements of a history: what a bounded ring remembers. */
  function LastN<T>(s: seq<T>, n: nat): (r: seq<T>)
    ensures |r| == if |s| <= n then |s| else n
  {
    if |s| <= n then s else s[|s| - n..]
  }

  /** Pushing onto an already bounded ring loses nothing a full history would have kept. */
  lemma LastNPush<T>(s: seq<T>, x: T, n: nat)
    ensures LastN(LastN(s, n) + [x], n) == LastN(s + [x], n)
  {
    if |s| > n {
      assert s + [x] == s[..|s| - n] + (s[|s| - n..] + [x]);
    }
  }

  /** A loop that carries one value along a sequence. */
  function Fold<R, B>(f: (R, B) -> R, start: R, s: seq<B>): (r: R)
  {
    if s == [] then start else f(Fold(f, start, s[..|s| - 1]), s[|s| - 1])
  }

  lemma {:induction false} FoldOn<R, B>(f: (R, B) -> R, a: R, s: seq<B>, t: seq<B>)
    ensures Fold(f, a, s + t) == Fold(f, Fold(f, a, s), t)
  {
    if t == [] {
      assert s + t == s;
    } else {
      var front := t[..|t| - 1];
      assert (s + t)[..|s + t| - 1] == s + front;
      FoldOn(f, a, s, front);
    }
  }

  lemma FoldOne<R, B>(f: (R, B) -> R, a: R, s: seq<B>, x: B, t: seq<B>)
    ensures Fold(f, a, s + [x] + t) == Fold(f, f(Fold(f, a, s), x), t)
  {
    FoldOn(f, a, s + [x], t);
    assert (s + [x])[..|s|] == s;
  }
}
