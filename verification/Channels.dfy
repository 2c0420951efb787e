/** Go channels as histories: what the receiver has taken, what is still buffered, and the close mark. */
module Channels {

  datatype Chan<T> = Chan(received: seq<T>, buffer: seq<T>, closed: bool) {

    /** Everything ever sent, in send order. */
    function Sent(): seq<T> {
      received + buffer
    }

    function Push(x: T): Chan<T> {
      this.(buffer := buffer + [x])
    }

    function Pop(): Chan<T>
      requires buffer != []
    {
      this.(received := received + [buffer[0]], buffer := buffer[1..])
    }

    function Shut(): Chan<T> {
      this.(closed := true)
    }
  }

  function Open<T>(): Chan<T> {
    Chan([], [], false)
  }

  /** `sub` can be obtained from `all` by deleting elements. */
  predicate Subsequence<T(==)>(sub: seq<T>, all: seq<T>) {
    sub == []
    || (all != []
        && (Subsequence(sub, all[..|all| - 1])
            || (sub[|sub| - 1] == all[|all| - 1] && Subsequence(sub[..|sub| - 1], all[..|all| - 1]))))
  }

  lemma SubsequenceSkip<T>(sub: seq<T>, all: seq<T>, x: T)
    requires Subsequence(sub, all)
    ensures Subsequence(sub, all + [x])
  {
    assert (all + [x])[..|all|] == all;
  }

  lemma SubsequenceKeep<T>(sub: seq<T>, all: seq<T>, x: T)
    requires Subsequence(sub, all)
    ensures Subsequence(sub + [x], all + [x])
  {
    assert (all + [x])[..|all|] == all;
    assert (sub + [x])[..|sub|] == sub;
  }
}
