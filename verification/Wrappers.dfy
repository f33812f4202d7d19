/** Optional values, outcomes that may carry an error, and the positions set in a sequence of flags. */
module Wrappers {

  datatype Option<+T> = None | Some(value: T) {
    function Or(default: T): T {
      if Some? then value else default
    }
  }

  datatype Result<+T, +E> = Ok(value: T) | Err(error: E)

  /** `pos` lists, in order, the positions that are set among the first `n`. */
  ghost predicate SetPositions(flags: seq<bool>, n: nat, pos: seq<nat>)
    requires n <= |flags|
  {
    && (forall a | 0 <= a < |pos| :: pos[a] < n && flags[pos[a]])
    && (forall a, b | 0 <= a < b < |pos| :: pos[a] < pos[b])
    && (forall k: nat | k < n && flags[k] :: k in pos)
  }

  function WithPosition(flags: seq<bool>, n: nat, pos: seq<nat>): seq<nat>
    requires n < |flags|
  {
    if flags[n] then pos + [n] else pos
  }

  lemma OneMorePosition(flags: seq<bool>, n: nat, pos: seq<nat>)
    requires n < |flags| && SetPositions(flags, n, pos)
    ensures SetPositions(flags, n + 1, WithPosition(flags, n, pos))
  {
    var longer := WithPosition(flags, n, pos);
    forall k: nat | k < n + 1 && flags[k] ensures k in longer {
      if k < n {
        assert k in pos;
      } else {
        assert longer[|pos|] == n;
      }
    }
  }
}
