/**
 * The argument rendering shared by both `cache_key_generator`s: positional
 * arguments by `str(arg)`, keyword arguments as "name:value" in name order.
 */
module KeyArgs {
  import opened Text

  /** An argument as far as a key sees it: None, or a value with its `str()` text. */
  datatype Arg = NoneArg | Given(text: string)

  /** `str(arg)`. */
  function Str(a: Arg): string {
    match a
    case NoneArg => "None"
    case Given(t) => t
  }

  /** `[f"{k}:{v}" for k, v in sorted(kwargs.items())]`. */
  function KwargParts(kwargs: seq<(string, Arg)>): (r: seq<string>)
    ensures |r| == |SortByName(kwargs)|
  {
    var sorted := SortByName(kwargs);
    seq(|sorted|, i requires 0 <= i < |sorted| => sorted[i].0 + ":" + Str(sorted[i].1))
  }

  /** Keyword arguments passed in any order yield the same parts. */
  lemma KwargPartsIgnoreOrder(a: seq<(string, Arg)>, b: seq<(string, Arg)>)
    requires DistinctNames(a) && DistinctNames(b)
    requires multiset(a) == multiset(b)
    ensures KwargParts(a) == KwargParts(b)
  {
    SortByNameIgnoresOrder(a, b);
  }
}
