/**
 * The `key=value` scan that both ingestion paths run over the tokens after the
 * service name: every token holding `=` is unpacked with `k, v = part.split("=")`
 * and stored, a later key overwriting an earlier one. A token with two or more
 * `=` splits into too many values and the unpacking raises.
 */
module ContextScan {
  import opened Wrappers
  import opened Strings

  type Context = map<string, string>

  /** The `ValueError` of `k, v = part.split("=")` on a token with more than one `=`. */
  datatype ScanError = TooManyValues(token: string)

  /** A token the loop unpacks and stores: exactly one `=`. */
  predicate IsPair(t: string) {
    multiset(t)['='] == 1
  }

  /** A token on which the unpacking raises: two or more `=`. */
  predicate IsBad(t: string) {
    multiset(t)['='] >= 2
  }

  /** The key a token would write, when it holds an `=` at all. */
  function KeyOf(t: string): (r: Option<string>)
    ensures r.Some? <==> Contains(t, "=")
  {
    if Contains(t, "=") then Some(Split(t, "=")[0]) else None
  }

  /** One turn of the loop body. */
  function Step(ctx: Context, t: string): (r: Result<Context, ScanError>)
    ensures r.Err? <==> IsBad(t)
    ensures r.Ok? && !Contains(t, "=") ==> r.value == ctx
    ensures r.Ok? && Contains(t, "=") ==> IsPair(t) && r.value == ctx[Split(t, "=")[0] := Split(t, "=")[1]]
  {
    SplitCharCount(t, '=');
    if !Contains(t, "=") then Ok(ctx)
    else
      var kv := Split(t, "=");
      if |kv| == 2 then Ok(ctx[kv[0] := kv[1]]) else Err(TooManyValues(t))
  }

  /** The whole loop over `toks`, started from `ctx`: the first error ends it. */
  function Scan(ctx: Context, toks: seq<string>): Result<Context, ScanError>
    decreases |toks|
  {
    if toks == [] then Ok(ctx)
    else
      match Step(ctx, toks[0])
      case Err(e) => Err(e)
      case Ok(next) => Scan(next, toks[1..])
  }

  /** The `for part in ...` loop itself, updating one map in place. */
  method ExtractContext(init: Context, toks: seq<string>) returns (r: Result<Context, ScanError>)
    ensures r == Scan(init, toks)
  {
    var ctx := init;
    var i := 0;
    while i < |toks|
      invariant 0 <= i <= |toks|
      invariant Scan(ctx, toks[i..]) == Scan(init, toks)
    {
      var part := toks[i];
      assert toks[i..][1..] == toks[i + 1..];
      if Contains(part, "=") {
        var kv := Split(part, "=");
        if |kv| != 2 {
          return Err(TooManyValues(part));
        }
        ctx := ctx[kv[0] := kv[1]];
      }
      i := i + 1;
    }
    return Ok(ctx);
  }

  /** The scan fails exactly at the first token with two or more `=`, naming that token. */
  lemma {:induction false} FirstBadFails(ctx: Context, toks: seq<string>, k: nat)
    requires k < |toks| && IsBad(toks[k])
    requires forall j :: 0 <= j < k ==> !IsBad(toks[j])
    ensures Scan(ctx, toks) == Err(TooManyValues(toks[k]))
    decreases |toks|
  {
    if k > 0 {
      assert !IsBad(toks[0]);
      var next := Step(ctx, toks[0]).value;
      var rest := toks[1..];
      assert forall j :: 0 <= j < k - 1 ==> rest[j] == toks[j + 1];
      FirstBadFails(next, rest, k - 1);
    }
  }

  /** Without a bad token the scan succeeds. */
  lemma {:induction false} NoBadSucceeds(ctx: Context, toks: seq<string>)
    requires forall j :: 0 <= j < |toks| ==> !IsBad(toks[j])
    ensures Scan(ctx, toks).Ok?
    decreases |toks|
  {
    if toks != [] {
      var rest := toks[1..];
      assert forall j :: 0 <= j < |rest| ==> rest[j] == toks[j + 1];
      NoBadSucceeds(Step(ctx, toks[0]).value, rest);
    }
  }

  /** The scan raises if and only if some token holds two or more `=`. */
  lemma ScanFailsIff(ctx: Context, toks: seq<string>)
    ensures Scan(ctx, toks).Err? <==> exists k :: 0 <= k < |toks| && IsBad(toks[k])
  {
    if exists k :: 0 <= k < |toks| && IsBad(toks[k]) {
      var k := FirstBad(toks);
      FirstBadFails(ctx, toks, k);
    } else {
      NoBadSucceeds(ctx, toks);
    }
  }

  /** The index of the first bad token. */
  function FirstBad(toks: seq<string>): (k: nat)
    requires exists k :: 0 <= k < |toks| && IsBad(toks[k])
    ensures k < |toks| && IsBad(toks[k]) && forall j :: 0 <= j < k ==> !IsBad(toks[j])
  {
    if IsBad(toks[0]) then 0
    else
      assert exists k :: 0 <= k < |toks[1..]| && IsBad(toks[1..][k]) by {
        var k :| 0 <= k < |toks| && IsBad(toks[k]);
        assert toks[1..][k - 1] == toks[k];
      }
      1 + FirstBad(toks[1..])
  }

  /**
   * Later duplicates overwrite earlier ones: the value stored for a key is the one
   * of the last pair token carrying it.
   */
  lemma {:induction false} LastWriteWins(ctx: Context, toks: seq<string>, j: nat, key: string, value: string)
    requires Scan(ctx, toks).Ok? && j < |toks| && Contains(toks[j], "=")
    requires Split(toks[j], "=")[0] == key && Split(toks[j], "=")[1] == value
    requires forall i :: j < i < |toks| ==> KeyOf(toks[i]) != Some(key)
    ensures key in Scan(ctx, toks).value && Scan(ctx, toks).value[key] == value
    decreases |toks|
  {
    var next := Step(ctx, toks[0]).value;
    var rest := toks[1..];
    assert Scan(ctx, toks) == Scan(next, rest);
    forall i | j <= i < |rest| ensures KeyOf(rest[i]) != Some(key) {
      assert rest[i] == toks[i + 1];
    }
    if j == 0 {
      assert next == ctx[key := value];
      Untouched(next, rest, key);
    } else {
      assert rest[j - 1] == toks[j];
      LastWriteWins(next, rest, j - 1, key, value);
    }
  }

  /** A key no token writes keeps what the starting map held for it. */
  lemma {:induction false} Untouched(ctx: Context, toks: seq<string>, key: string)
    requires Scan(ctx, toks).Ok?
    requires forall i :: 0 <= i < |toks| ==> KeyOf(toks[i]) != Some(key)
    ensures key in Scan(ctx, toks).value <==> key in ctx
    ensures key in ctx ==> Scan(ctx, toks).value[key] == ctx[key]
    decreases |toks|
  {
    if toks != [] {
      var next := Step(ctx, toks[0]).value;
      var rest := toks[1..];
      assert KeyOf(toks[0]) != Some(key);
      assert key in next <==> key in ctx;
      assert key in ctx ==> next[key] == ctx[key];
      forall i | 0 <= i < |rest| ensures KeyOf(rest[i]) != Some(key) {
        assert rest[i] == toks[i + 1];
      }
      Untouched(next, rest, key);
    }
  }

  /** Every key of the result was in the starting map or is the key of some token. */
  lemma KeysCome(ctx: Context, toks: seq<string>, key: string)
    requires Scan(ctx, toks).Ok? && key in Scan(ctx, toks).value
    ensures key in ctx || exists i :: 0 <= i < |toks| && KeyOf(toks[i]) == Some(key)
  {
    if !(exists i :: 0 <= i < |toks| && KeyOf(toks[i]) == Some(key)) {
      Untouched(ctx, toks, key);
    }
  }

  /** A token without `=` is passed over. */
  lemma ScanPlain(ctx: Context, toks: seq<string>)
    requires toks != [] && !Contains(toks[0], "=")
    ensures Scan(ctx, toks) == Scan(ctx, toks[1..])
  {
  }

  /** Words without `=` in front of the rest leave the scan as it is. */
  lemma {:induction false} ScanPlainWords(ctx: Context, words: seq<string>, rest: seq<string>)
    requires forall i :: 0 <= i < |words| ==> '=' !in words[i]
    ensures Scan(ctx, words + rest) == Scan(ctx, rest)
    decreases |words|
  {
    if words != [] {
      var toks := words + rest;
      MissingChar(words[0], "=", '=');
      assert toks[0] == words[0];
      assert Step(ctx, toks[0]) == Ok(ctx);
      assert toks[1..] == words[1..] + rest;
      ScanPlainWords(ctx, words[1..], rest);
    } else {
      assert words + rest == rest;
    }
  }

  /** A token `key=value` with no further `=` stores `value` under `key`. */
  lemma ScanPair(ctx: Context, toks: seq<string>, key: string, value: string)
    requires toks != [] && toks[0] == key + "=" + value && '=' !in key && '=' !in value
    ensures Scan(ctx, toks) == Scan(ctx[key := value], toks[1..])
  {
    SplitNoChar(value, '=');
    SplitAtChar(key, '=', value);
    assert Split(toks[0], "=") == [key, value];
  }

  /**
   * A message of plain words followed by two pairs, joined by single spaces, scans
   * to the map of the two pairs.
   */
  lemma WordsThenPairs(words: seq<string>, k1: string, v1: string, k2: string, v2: string)
    requires forall i :: 0 <= i < |words| ==> ' ' !in words[i] && '=' !in words[i]
    requires ' ' !in k1 && '=' !in k1 && ' ' !in v1 && '=' !in v1
    requires ' ' !in k2 && '=' !in k2 && ' ' !in v2 && '=' !in v2
    ensures Scan(map[], Split(Join(" ", words + [k1 + "=" + v1, k2 + "=" + v2]), " ")) == Ok(map[k1 := v1, k2 := v2])
  {
    var pairs := [k1 + "=" + v1, k2 + "=" + v2];
    WordsSplitBack(words, pairs);
    WordsThenTwoPairs(words, pairs, k1, v1, k2, v2);
  }

  lemma WordsSplitBack(words: seq<string>, pairs: seq<string>)
    requires forall i :: 0 <= i < |words| ==> ' ' !in words[i]
    requires |pairs| == 2 && ' ' !in pairs[0] && ' ' !in pairs[1]
    ensures Split(Join(" ", words + pairs), " ") == words + pairs
  {
    var toks := words + pairs;
    forall i | 0 <= i < |toks| ensures ' ' !in toks[i] {
      if i >= |words| {
        assert toks[i] == pairs[i - |words|];
      }
    }
    SplitJoin(toks, ' ');
  }

  lemma WordsThenTwoPairs(words: seq<string>, pairs: seq<string>, k1: string, v1: string, k2: string, v2: string)
    requires forall i :: 0 <= i < |words| ==> '=' !in words[i]
    requires pairs == [k1 + "=" + v1, k2 + "=" + v2]
    requires '=' !in k1 && '=' !in v1 && '=' !in k2 && '=' !in v2
    ensures Scan(map[], words + pairs) == Ok(map[k1 := v1, k2 := v2])
  {
    ScanPlainWords(map[], words, pairs);
    ScanPair(map[], pairs, k1, v1);
    assert pairs[1..] == [k2 + "=" + v2];
    ScanPair(map[k1 := v1], pairs[1..], k2, v2);
    assert pairs[1..][1..] == [];
  }
}
