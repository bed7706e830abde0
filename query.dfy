/**
 * The firmware's query-string parser (`parse_query_params`): the text after
 * the first `?` of the request, up to the next space, is split on `&`, and
 * each piece is split at its first `=` into a key and a value.
 */
module Query {
  import opened PyText

  type Params = map<string, string>

  /** The query of a request: after the first `?`, before the next space; empty without a `?`. */
  function QueryString(request: string): string
  {
    if '?' in request then Before(After(request, '?'), ' ') else []
  }

  /** The key a piece names: everything before its first `=` (all of it when there is none). */
  function Key(pair: string): string
  {
    Before(pair, '=')
  }

  /** The value a piece carries: everything after its first `=`, or `""` for a bare key. */
  function Value(pair: string): string
  {
    if '=' in pair then After(pair, '=') else []
  }

  /** One turn of the parser's loop: a `key=value` piece, a bare key, or an empty piece. */
  function AddPair(params: Params, pair: string): Params
  {
    if '=' in pair then params[Before(pair, '=') := After(pair, '=')]
    else if pair != [] then params[pair := []]
    else params
  }

  /** The dictionary built from the pieces, in order, starting empty. */
  function ParamsOf(pairs: seq<string>): Params
  {
    if pairs == [] then map[]
    else AddPair(ParamsOf(pairs[..|pairs| - 1]), pairs[|pairs| - 1])
  }

  /** One more piece: the dictionary of a longer prefix is one more turn of the loop. */
  lemma ParamsOfStep(pairs: seq<string>, i: nat)
    requires i < |pairs|
    ensures ParamsOf(pairs[..i + 1]) == AddPair(ParamsOf(pairs[..i]), pairs[i])
  {
    assert pairs[..i + 1][..i] == pairs[..i];
  }

  /** What `parse_query_params(request)` returns. */
  function QueryParams(request: string): Params
  {
    ParamsOf(Split(QueryString(request), '&'))
  }

  /** `parse_query_params`, with the loop that fills the dictionary piece by piece. */
  method ParseQueryParams(request: string) returns (params: Params)
    ensures params == QueryParams(request)
  {
    var query := "";
    if '?' in request {
      query := Before(After(request, '?'), ' ');
    }
    var pairs := Split(query, '&');
    params := map[];
    var i := 0;
    while i < |pairs|
      invariant 0 <= i <= |pairs|
      invariant params == ParamsOf(pairs[..i])
    {
      var pair := pairs[i];
      ghost var before := params;
      if '=' in pair {
        var key, value := Before(pair, '='), After(pair, '=');
        params := params[key := value];
      } else if pair != "" {
        params := params[pair := ""];
      }
      assert params == AddPair(before, pair);
      ParamsOfStep(pairs, i);
      i := i + 1;
    }
    assert pairs[..|pairs|] == pairs;
  }

  // -----------------------------------------------------------------------
  // Properties of the parser.
  // -----------------------------------------------------------------------

  /** A request without a `?` has no parameters. */
  lemma NoQuestionMarkNoParams(request: string)
    requires '?' !in request
    ensures QueryParams(request) == map[]
  {
    var pieces := Split([], '&');
    assert pieces == [[]];
    assert pieces[..0] == [];
  }

  /**
   * The query is exactly the text between the first `?` and the next space
   * (or the end of the request).
   */
  lemma QueryStringBetween(head: string, query: string, rest: string)
    requires '?' !in head
    requires ' ' !in query
    requires rest == [] || rest[0] == ' '
    ensures QueryString(head + "?" + query + rest) == query
  {
    var request := head + "?" + query + rest;
    assert request == head + ['?'] + (query + rest);
    SplitOnceAt(head, '?', query + rest);
    assert After(request, '?') == query + rest;
    if rest == [] {
      BeforeFirst(query, ' ', []);
      assert query + rest == query;
    } else {
      BeforeFirst(query, ' ', rest[1..]);
      assert query + rest == query + [' '] + rest[1..];
    }
  }

  /** A piece is split at its FIRST `=`: the value may itself contain `=`. */
  lemma SplitAtFirstEquals(key: string, value: string)
    requires '=' !in key
    ensures Key(key + "=" + value) == key
    ensures Value(key + "=" + value) == value
  {
    SplitOnceAt(key, '=', value);
  }

  /** A non-empty piece without `=` is a key with the empty value. */
  lemma BareKey(pair: string)
    requires pair != [] && '=' !in pair
    ensures Key(pair) == pair && Value(pair) == []
    ensures forall params: Params :: AddPair(params, pair) == params[pair := []]
  {
    BeforeFirst(pair, '=', []);
  }

  /** Every non-empty piece binds its key to its value; an empty piece changes nothing. */
  lemma AddPairBinds(params: Params, pair: string)
    ensures AddPair(params, pair) == if pair == [] then params else params[Key(pair) := Value(pair)]
  {
    if pair != [] && '=' !in pair {
      BareKey(pair);
    }
  }

  /** A later piece with the same key overwrites the earlier binding. */
  lemma LaterKeyOverwrites(pairs: seq<string>, key: string, value: string)
    requires '=' !in key
    ensures ParamsOf(pairs + [key + "=" + value]) == ParamsOf(pairs)[key := value]
  {
    var all := pairs + [key + "=" + value];
    assert all[..|all| - 1] == pairs;
    SplitAtFirstEquals(key, value);
    AddPairBinds(ParamsOf(pairs), key + "=" + value);
  }

  /** The pieces that are not empty, in order. */
  function NonEmpty(pairs: seq<string>): (r: seq<string>)
    ensures forall k :: 0 <= k < |r| ==> r[k] != []
  {
    if pairs == [] then []
    else if pairs[|pairs| - 1] == [] then NonEmpty(pairs[..|pairs| - 1])
    else NonEmpty(pairs[..|pairs| - 1]) + [pairs[|pairs| - 1]]
  }

  /** Empty pieces (`a=1&&b=2`, a trailing `&`) add nothing. */
  lemma {:induction false} EmptyPiecesIgnored(pairs: seq<string>)
    ensures ParamsOf(NonEmpty(pairs)) == ParamsOf(pairs)
  {
    if pairs != [] {
      var init, last := pairs[..|pairs| - 1], pairs[|pairs| - 1];
      EmptyPiecesIgnored(init);
      if last != [] {
        var ne := NonEmpty(init) + [last];
        assert ne[..|ne| - 1] == NonEmpty(init);
      }
    }
  }

  /** Some non-empty piece at a position `lo` or later names `key`. */
  predicate NamedFrom(pairs: seq<string>, key: string, lo: nat)
  {
    exists j :: lo <= j < |pairs| && pairs[j] != [] && Key(pairs[j]) == key
  }

  /** A key named in a prefix of the pieces is named in all of them. */
  lemma NamedFromPrefix(pairs: seq<string>, n: nat, key: string, lo: nat)
    requires n <= |pairs|
    ensures NamedFrom(pairs[..n], key, lo) ==> NamedFrom(pairs, key, lo)
  {
    if NamedFrom(pairs[..n], key, lo) {
      var i :| lo <= i < n && pairs[..n][i] != [] && Key(pairs[..n][i]) == key;
      assert pairs[i] == pairs[..n][i];
    }
  }

  /** The piece at `j` is the last non-empty piece that names `key`. */
  predicate LastNamedAt(pairs: seq<string>, key: string, j: int)
  {
    0 <= j < |pairs| && pairs[j] != [] && Key(pairs[j]) == key && !NamedFrom(pairs, key, j + 1)
  }

  /**
   * The parsed dictionary holds exactly the keys of the non-empty pieces,
   * and each key is bound to the value of the LAST piece that names it.
   */
  lemma {:induction false} ParamsOfBindsLastPiece(pairs: seq<string>, key: string)
    ensures key in ParamsOf(pairs) <==> NamedFrom(pairs, key, 0)
    ensures forall j :: LastNamedAt(pairs, key, j) ==> key in ParamsOf(pairs) && ParamsOf(pairs)[key] == Value(pairs[j])
  {
    if pairs != [] {
      var n := |pairs| - 1;
      var init, last := pairs[..n], pairs[n];
      assert pairs == init + [last];
      ParamsOfBindsLastPiece(init, key);
      AddPairBinds(ParamsOf(init), last);
      if last != [] && Key(last) == key {
        assert NamedFrom(pairs, key, 0) by {
          assert pairs[n] != [] && Key(pairs[n]) == key;
        }
        forall lo: nat | lo <= n
          ensures NamedFrom(pairs, key, lo)
        {
          assert pairs[n] != [] && Key(pairs[n]) == key;
        }
      } else {
        assert NamedFrom(pairs, key, 0) <==> NamedFrom(init, key, 0) by {
          if NamedFrom(pairs, key, 0) {
            var j :| 0 <= j < |pairs| && pairs[j] != [] && Key(pairs[j]) == key;
            assert j < n;
            assert init[j] == pairs[j];
          }
          if NamedFrom(init, key, 0) {
            var j :| 0 <= j < |init| && init[j] != [] && Key(init[j]) == key;
            assert pairs[j] == init[j];
          }
        }
        forall j | LastNamedAt(pairs, key, j)
          ensures key in ParamsOf(pairs) && ParamsOf(pairs)[key] == Value(pairs[j])
        {
          assert j < n;
          assert init[j] == pairs[j];
          NamedFromPrefix(pairs, n, key, j + 1);
          assert LastNamedAt(init, key, j);
        }
      }
    }
  }
}
