/** Connection strings: "key=value" pairs with a space between them, printed from a dictionary and
    parsed back into one. */
module ConnectionString {
  import opened Options
  import opened OrderedDict
  import opened Texts

  datatype ParseError = NotAPair(text: string)

  // ---- Printing and parsing ----

  function Pair(entry: (string, string)): string {
    entry.0 + "=" + entry.1
  }

  function Pairs(d: Dict<string, string>): seq<string> {
    seq(|d|, i requires 0 <= i < |d| => Pair(d[i]))
  }

  function PrintDict(d: Dict<string, string>): string {
    Join(Pairs(d), " ")
  }

  function ParsedPairs(pairs: seq<string>): Result<Dict<string, string>, ParseError> {
    if pairs == [] then Ok([])
    else
      var last := pairs[|pairs| - 1];
      match ParsedPairs(pairs[..|pairs| - 1])
      case Err(e) => Err(e)
      case Ok(d) =>
        var pieces := Split(last, '=');
        if |pieces| == 2 then Ok(Put(d, pieces[0], pieces[1])) else Err(NotAPair(last))
  }

  function Parsed(s: string): Result<Dict<string, string>, ParseError> {
    ParsedPairs(Split(s, ' '))
  }

  lemma {:induction false} ErrorsStay(pairs: seq<string>, i: nat)
    requires i <= |pairs| && ParsedPairs(pairs[..i]).Err?
    ensures ParsedPairs(pairs) == ParsedPairs(pairs[..i])
    decreases |pairs|
  {
    if i == |pairs| {
      assert pairs[..i] == pairs;
    } else {
      assert pairs[..|pairs| - 1][..i] == pairs[..i];
      ErrorsStay(pairs[..|pairs| - 1], i);
    }
  }

  predicate IsPair(piece: string) {
    |Split(piece, '=')| == 2
  }

  // The i-th piece is the last one with its key.
  predicate LastWith(pairs: seq<string>, i: nat, k: string, v: string) {
    && i < |pairs| && Split(pairs[i], '=') == [k, v]
    && forall j | i < j < |pairs| :: Split(pairs[j], '=')[0] != k
  }

  /** Parsing fails exactly when some piece is not one pair, and names the first such piece. */
  lemma {:induction false} ParsingFailsIff(pairs: seq<string>)
    ensures ParsedPairs(pairs).Ok? <==> forall i | 0 <= i < |pairs| :: IsPair(pairs[i])
    ensures forall i | 0 <= i < |pairs| && !IsPair(pairs[i]) && (forall j | 0 <= j < i :: IsPair(pairs[j])) ::
              ParsedPairs(pairs) == Err(NotAPair(pairs[i]))
    decreases |pairs|
  {
    if pairs != [] {
      ParsingFailsIff(pairs[..|pairs| - 1]);
    }
  }

  // One pair more: it is the last with its key, and leaves the others' last pairs where they were.
  lemma {:induction false} LastWithSteps(pairs: seq<string>, k: string, v: string)
    requires pairs != [] && IsPair(pairs[|pairs| - 1])
    ensures var n, pieces := |pairs| - 1, Split(pairs[|pairs| - 1], '=');
            (exists i: nat :: LastWith(pairs, i, k, v)) <==>
            if pieces[0] == k then pieces[1] == v else exists i: nat :: LastWith(pairs[..n], i, k, v)
  {
    var n := |pairs| - 1;
    var init, pieces := pairs[..n], Split(pairs[n], '=');
    if pieces[0] == k {
      assert pieces == [k, pieces[1]];
      assert pieces[1] == v ==> LastWith(pairs, n, k, v);
      assert forall i: nat | i < n :: !LastWith(pairs, i, k, v);
    } else {
      assert !LastWith(pairs, n, k, v);
      forall i: nat ensures LastWith(pairs, i, k, v) <==> LastWith(init, i, k, v) {
        assert i < n ==> init[i] == pairs[i];
      }
    }
  }

  /** A key has the value of the last pair that sets it. */
  lemma {:induction false} LastPairWins(pairs: seq<string>, k: string, v: string)
    requires ParsedPairs(pairs).Ok?
    ensures Get(ParsedPairs(pairs).value, k) == Some(v) <==> exists i: nat :: LastWith(pairs, i, k, v)
    decreases |pairs|
  {
    if pairs != [] {
      var n := |pairs| - 1;
      var pieces := Split(pairs[n], '=');
      LastPairWins(pairs[..n], k, v);
      LastWithSteps(pairs, k, v);
      GetAfterPut(ParsedPairs(pairs[..n]).value, pieces[0], pieces[1], k);
    }
  }

  method ParseKvString(s: string) returns (r: Result<Dict<string, string>, ParseError>)
    ensures r == Parsed(s)
  {
    var parsed := [];
    var pairs := Split(s, ' ');
    for i := 0 to |pairs|
      invariant ParsedPairs(pairs[..i]) == Ok(parsed)
    {
      assert pairs[..i + 1][..i] == pairs[..i];
      var pieces := Split(pairs[i], '=');
      if |pieces| != 2 {
        ErrorsStay(pairs, i + 1);
        return Err(NotAPair(pairs[i]));
      }
      parsed := Put(parsed, pieces[0], pieces[1]);
    }
    assert pairs[..|pairs|] == pairs;
    return Ok(parsed);
  }

  // ---- Round trips ----

  predicate Plain(s: string) {
    Free(s, ' ') && Free(s, '=')
  }

  predicate AllPlain(d: Dict<string, string>) {
    forall i | 0 <= i < |d| :: Plain(d[i].0) && Plain(d[i].1)
  }

  lemma {:induction false} PutNewGoesLast(d: Dict<string, string>, k: string, v: string)
    requires forall i | 0 <= i < |d| :: d[i].0 != k
    ensures Put(d, k, v) == d + [(k, v)]
  {
    if d != [] {
      PutNewGoesLast(d[1..], k, v);
      assert d == [d[0]] + d[1..];
    }
  }

  lemma {:induction false} PairIsPlain(entry: (string, string))
    requires Plain(entry.0) && Plain(entry.1)
    ensures Free(Pair(entry), ' ') && Split(Pair(entry), '=') == [entry.0, entry.1]
  {
    SplitAtFirst(entry.0, '=', entry.1);
    SplitAtFirst(entry.1, '=', "");
    assert Pair(entry) == entry.0 + ['='] + entry.1;
  }

  lemma {:induction false} PairsParse(d: Dict<string, string>)
    requires DistinctKeys(d) && AllPlain(d)
    ensures ParsedPairs(Pairs(d)) == Ok(d)
    decreases |d|
  {
    if d != [] {
      var init, last := d[..|d| - 1], d[|d| - 1];
      PairsParse(init);
      PairIsPlain(last);
      PutNewGoesLast(init, last.0, last.1);
      assert Pairs(d)[..|d| - 1] == Pairs(init);
      assert d == init + [last];
    }
  }

  lemma {:induction false} PutKeepsPlain(d: Dict<string, string>, k: string, v: string)
    requires AllPlain(d) && Plain(k) && Plain(v)
    ensures AllPlain(Put(d, k, v)) && Put(d, k, v) != []
  {
    if d != [] && d[0].0 != k {
      PutKeepsPlain(d[1..], k, v);
    }
  }

  // What comes out of parsing has no separators in it.
  lemma {:induction false} ParsedIsPlain(pairs: seq<string>)
    requires AllFree(pairs, ' ') && ParsedPairs(pairs).Ok?
    ensures AllPlain(ParsedPairs(pairs).value) && DistinctKeys(ParsedPairs(pairs).value)
    ensures pairs != [] ==> ParsedPairs(pairs).value != []
    decreases |pairs|
  {
    if pairs != [] {
      var init, last := pairs[..|pairs| - 1], pairs[|pairs| - 1];
      ParsedIsPlain(init);
      var pieces := Split(last, '=');
      SplitIsFree(last, '=', ' ');
      PutKeepsPlain(ParsedPairs(init).value, pieces[0], pieces[1]);
      PutKeepsDistinct(ParsedPairs(init).value, pieces[0], pieces[1]);
    }
  }

  /** Parsing what was printed gives the dictionary back exactly when it is not empty and no key or
      value contains a separator. */
  lemma {:induction false} ParseOfPrintIff(d: Dict<string, string>)
    requires DistinctKeys(d)
    ensures Parsed(PrintDict(d)) == Ok(d) <==> d != [] && AllPlain(d)
  {
    if d != [] && AllPlain(d) {
      forall i | 0 <= i < |d| ensures Free(Pairs(d)[i], ' ') {
        PairIsPlain(d[i]);
      }
      SplitOfJoin(Pairs(d), ' ');
      PairsParse(d);
    } else if Parsed(PrintDict(d)) == Ok(d) {
      SplitIsFree(PrintDict(d), ' ', ' ');
      ParsedIsPlain(Split(PrintDict(d), ' '));
    }
  }

  lemma {:induction false} PutLength(d: Dict<string, string>, k: string, v: string)
    ensures |d| <= |Put(d, k, v)| <= |d| + 1
    ensures |Put(d, k, v)| == |d| + 1 ==> Put(d, k, v) == d + [(k, v)]
  {
    if d != [] && d[0].0 != k {
      PutLength(d[1..], k, v);
      assert d == [d[0]] + d[1..];
    }
  }

  lemma {:induction false} ParsedPairsPrint(pairs: seq<string>)
    requires ParsedPairs(pairs).Ok?
    ensures |ParsedPairs(pairs).value| <= |pairs|
    ensures |ParsedPairs(pairs).value| == |pairs| ==> Pairs(ParsedPairs(pairs).value) == pairs
    decreases |pairs|
  {
    if pairs != [] {
      var init, last := pairs[..|pairs| - 1], pairs[|pairs| - 1];
      ParsedPairsPrint(init);
      var d := ParsedPairs(init).value;
      var pieces := Split(last, '=');
      PutLength(d, pieces[0], pieces[1]);
      JoinOfSplit(last, '=');
      assert Join(pieces, "=") == pieces[0] + "=" + Join(pieces[1..], "=");
      assert pieces[1..] == [pieces[1]];
      assert Pair((pieces[0], pieces[1])) == last;
      assert pairs == init + [last];
    }
  }

  /** Printing what was parsed gives the text back exactly when it repeats no key. */
  lemma {:induction false} PrintOfParseIff(s: string)
    requires Parsed(s).Ok?
    ensures PrintDict(Parsed(s).value) == s <==> |Parsed(s).value| == |Split(s, ' ')|
  {
    var pairs := Split(s, ' ');
    var d := Parsed(s).value;
    ParsedPairsPrint(pairs);
    JoinOfSplit(s, ' ');
    if PrintDict(d) == s {
      SplitIsFree(s, ' ', ' ');
      ParsedIsPlain(pairs);
      forall i | 0 <= i < |d| ensures Free(Pairs(d)[i], ' ') {
        PairIsPlain(d[i]);
      }
      SplitOfJoin(Pairs(d), ' ');
    }
  }
}
