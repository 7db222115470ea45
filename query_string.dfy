/** Query strings as the URL helper appends them (`http_build_query`, flat
    string values only), and their round trip through the form decoder of the
    form-urlencoded body strategy. */
module QueryString {
  import opened PhpText
  import opened PhpArray
  import FormUrlEncodedStrategy

  /** One `key=value` pair. */
  function Pair(k: string, v: string): string {
    k + "=" + v
  }

  /** `http_build_query($params)` for string keys and string values that need no
      escaping: the pairs in order, joined by `&`. */
  function BuildQuery(params: seq<(string, string)>): (r: string)
    ensures params == [] <==> r == ""
    ensures params != [] ==> StartsWith(r, Pair(params[0].0, params[0].1))
  {
    if params == [] then ""
    else if |params| == 1 then Pair(params[0].0, params[0].1)
    else Pair(params[0].0, params[0].1) + "&" + BuildQuery(params[1..])
  }

  /** The parameters the flat encoding can carry unchanged: keys non-empty and
      free of `&` and `=`, values free of `&`. */
  predicate Plain(params: seq<(string, string)>) {
    forall i :: 0 <= i < |params| ==>
      params[i].0 != "" && '&' !in params[i].0 && '=' !in params[i].0 && '&' !in params[i].1
  }

  /** The `&`-separated pieces of the query. */
  function Pairs(params: seq<(string, string)>): (r: seq<string>)
    ensures |r| == |params|
  {
    if params == [] then [] else [Pair(params[0].0, params[0].1)] + Pairs(params[1..])
  }

  /** Splitting a built query at `&` gives back its pairs. */
  lemma {:induction false} SplitBuildQuery(params: seq<(string, string)>)
    requires params != [] && Plain(params)
    ensures FormUrlEncodedStrategy.Split(BuildQuery(params), '&') == Pairs(params)
    decreases |params|
  {
    var p := Pair(params[0].0, params[0].1);
    assert '&' !in p;
    BeforeFirstWhole(p, '&');
    if |params| == 1 {
    } else {
      var rest := BuildQuery(params[1..]);
      var s := p + "&" + rest;
      BeforeFirstOfJoin(p, '&', rest);
      assert p + ['&'] + rest == s;
      assert s[|p| + 1..] == rest;
      SplitBuildQuery(params[1..]);
    }
  }

  /** One pair decodes to its key and value. */
  lemma DecodePair(k: string, v: string)
    requires k != "" && '=' !in k
    ensures BeforeFirst(Pair(k, v), '=') == k
    ensures Pair(k, v)[|k| + 1..] == v
  {
    BeforeFirstWhole(k, '=');
    BeforeFirstOfJoin(k, '=', v);
    assert k + ['='] + v == Pair(k, v);
  }

  /** Decoding the pairs puts each key and value in turn, as `array_merge` does. */
  lemma {:induction false} DecodePairs(acc: Assoc<string>, params: Assoc<string>)
    requires Plain(params)
    ensures FormUrlEncodedStrategy.DecodePieces(acc, Pairs(params)) == Merge(acc, params)
    decreases |params|
  {
    if params == [] {
      assert Pairs(params) == [];
    } else {
      var acc' := Put(acc, params[0].0, params[0].1);
      var rest: Assoc<string> := params[1..];
      DecodeFirstPair(acc, params);
      DecodePairs(acc', rest);
      MergeStep(acc, params);
    }
  }

  /** One step of DecodePairs. */
  lemma DecodeFirstPair(acc: Assoc<string>, params: Assoc<string>)
    requires params != [] && Plain(params)
    ensures Plain(params[1..])
    ensures FormUrlEncodedStrategy.DecodePieces(acc, Pairs(params))
         == FormUrlEncodedStrategy.DecodePieces(Put(acc, params[0].0, params[0].1), Pairs(params[1..]))
  {
    DecodePair(params[0].0, params[0].1);
    assert Pairs(params)[1..] == Pairs(params[1..]);
    assert Plain(params[1..]) by {
      forall i | 0 <= i < |params[1..]| ensures params[1..][i] == params[i + 1] { }
    }
  }

  /** Round trip: the form decoder reads back exactly the parameters a query was
      built from, in their order. */
  lemma QueryRoundTrip(params: Assoc<string>)
    requires Plain(params)
    ensures FormUrlEncodedStrategy.DecodeForm(BuildQuery(params)) == params
  {
    if params == [] {
      assert FormUrlEncodedStrategy.Split("", '&') == [""];
      assert FormUrlEncodedStrategy.DecodePieces([], [""]) == [];
    } else {
      SplitBuildQuery(params);
      DecodePairs([], params);
      MergeIntoEmpty(params);
    }
  }
}
