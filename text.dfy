/** The string operations the SQL builders are made of: joining with a
    separator, appending a separator after every item (what the folds with
    `push_str(", ")` and `acc + &format!("…, ")` produce), and Rust's
    `str::trim_end_matches`. */
module Text {

  /** `items.join(sep)`. */
  function Join(items: seq<string>, sep: string): string
    decreases |items|
  {
    if |items| == 0 then ""
    else if |items| == 1 then items[0]
    else Join(items[..|items| - 1], sep) + sep + items[|items| - 1]
  }

  /** Every item followed by `sep`: the text of a fold that pushes an item
      and then the separator. */
  function Terminated(items: seq<string>, sep: string): string
    decreases |items|
  {
    if items == [] then "" else Terminated(items[..|items| - 1], sep) + items[|items| - 1] + sep
  }

  /** `s.trim_end_matches(pat)`: removes `pat` from the end as often as it
      is there. */
  function TrimEndMatches(s: string, pat: string): (r: string)
    requires pat != []
    ensures |r| <= |s| && r == s[..|r|]
    ensures !(|pat| <= |r| && r[|r| - |pat|..] == pat)
    decreases |s|
  {
    if |pat| <= |s| && s[|s| - |pat|..] == pat then TrimEndMatches(s[..|s| - |pat|], pat) else s
  }

  /** An item that the trailing-separator trim cannot eat into: it is not
      empty and does not end with a space. */
  predicate Solid(item: string) {
    item != [] && item[|item| - 1] != ' '
  }

  lemma {:induction false} TerminatedIsJoinPlusSep(items: seq<string>, sep: string)
    requires items != []
    ensures Terminated(items, sep) == Join(items, sep) + sep
    decreases |items|
  {
    if |items| > 1 {
      var init := items[..|items| - 1];
      TerminatedIsJoinPlusSep(init, sep);
      assert Terminated(items, sep) == Terminated(init, sep) + items[|items| - 1] + sep;
    }
  }

  lemma {:induction false} JoinEndsWithLast(items: seq<string>, sep: string)
    requires items != [] && items[|items| - 1] != []
    ensures var j := Join(items, sep); j != [] && j[|j| - 1] == items[|items| - 1][|items[|items| - 1]| - 1]
  {
  }

  /** Trimming the trailing separator off a separator-terminated list of
      solid items gives exactly the joined list: `k` items keep `k - 1`
      separators, and no list ends with `", "`. */
  lemma {:induction false} TrimTerminated(items: seq<string>)
    requires forall i | 0 <= i < |items| :: Solid(items[i])
    ensures TrimEndMatches(Terminated(items, ", "), ", ") == Join(items, ", ")
  {
    if items != [] {
      TerminatedIsJoinPlusSep(items, ", ");
      var j := Join(items, ", ");
      JoinEndsWithLast(items, ", ");
      assert Solid(items[|items| - 1]);
      var t := j + ", ";
      assert t[|t| - 2..] == ", ";
      assert t[..|t| - 2] == j;
      assert TrimEndMatches(t, ", ") == TrimEndMatches(j, ", ");
      assert j[|j| - 1] != ' ';
      assert !(2 <= |j| && j[|j| - 2..] == ", ");
    }
  }
}
