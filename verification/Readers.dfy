/** Reading text character by character with a state that may refuse. */
module Readers {
  import opened Options

  function ReadAll<R>(step: (R, char) -> Option<R>, r: R, s: string): Option<R>
    decreases |s|
  {
    if s == "" then Some(r)
    else match step(r, s[0])
      case Some(next) => ReadAll(step, next, s[1..])
      case None => None
  }

  lemma {:induction false} ReadConcat<R>(step: (R, char) -> Option<R>, r: R, a: string, b: string)
    ensures ReadAll(step, r, a + b)
         == match ReadAll(step, r, a) case Some(mid) => ReadAll(step, mid, b) case None => None
    decreases |a|
  {
    if a == "" {
      assert a + b == b;
    } else {
      assert (a + b)[1..] == a[1..] + b;
      if step(r, a[0]).Some? {
        ReadConcat(step, step(r, a[0]).value, a[1..], b);
      }
    }
  }

  lemma ReadSingle<R>(step: (R, char) -> Option<R>, r: R, c: char)
    ensures ReadAll(step, r, [c]) == step(r, c)
  {
    assert [c][1..] == "";
  }

  lemma HeadThenTail(before: string, s: string)
    requires s != ""
    ensures before + s == before + [s[0]] + s[1..]
    ensures |s| == 1 ==> before + s == before + [s[0]]
  {
  }
}
