/** Small facts about sequences and about results that grow from the front. */
module Sequences {
  import opened Wrappers

  lemma Regroup<T>(a: seq<T>, b: seq<T>, c: seq<T>)
    ensures a + b + c == a + (b + c)
  {
  }

  lemma HeadAndTail<T>(s: seq<T>)
    requires s != []
    ensures [s[0]] + s[1..] == s
  {
  }

  /** What has been read already, in front of the outcome of the rest. */
  function Ahead<T, E>(read: seq<T>, rest: Result<seq<T>, E>): Result<seq<T>, E> {
    match rest
    case Err(error) => Err(error)
    case Ok(values) => Ok(read + values)
  }

  lemma AheadOfNone<T, E>(rest: Result<seq<T>, E>)
    ensures Ahead([], rest) == rest
  {
    if rest.Ok? {
      assert [] + rest.value == rest.value;
    }
  }

  lemma AheadTwice<T, E>(read: seq<T>, more: seq<T>, rest: Result<seq<T>, E>)
    ensures Ahead(read, Ahead(more, rest)) == Ahead(read + more, rest)
  {
    if rest.Ok? {
      Regroup(read, more, rest.value);
    }
  }
}
