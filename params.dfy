/**
 * `get_string_from_params`: the query parameters of a request written as
 * `key=value` pairs joined by `&`, in insertion order and without any
 * percent-encoding (the openFDA API rejects encoded square brackets).
 */
module Params {
  import opened Wrappers
  import opened Text

  /** One `key=value` piece. */
  function Piece(p: (string, string)): string {
    p.0 + "=" + p.1
  }

  function Pieces(params: seq<(string, string)>): (r: seq<string>)
    ensures |r| == |params|
    ensures forall i :: 0 <= i < |params| ==> r[i] == Piece(params[i])
  {
    if |params| == 0 then [] else [Piece(params[0])] + Pieces(params[1..])
  }

  /** The parameters, in order, as `k1=v1&k2=v2&...`. */
  function ParamString(params: seq<(string, string)>): string {
    Join(Pieces(params), '&')
  }

  /** The decimal digits of a natural number, as `"%s" % n` writes an int. */
  function Decimal(n: nat): (s: string)
    ensures |s| >= 1
    decreases n
  {
    if n < 10 then [('0' as int + n) as char]
    else Decimal(n / 10) + [('0' as int + n % 10) as char]
  }

  /** Keys and values the `k=v&...` syntax carries unambiguously. */
  predicate PlainParams(params: seq<(string, string)>) {
    forall i :: 0 <= i < |params| ==>
      '=' !in params[i].0 && '&' !in params[i].0 && '&' !in params[i].1
  }

  function ParsePieces(pieces: seq<string>): Option<seq<(string, string)>> {
    if |pieces| == 0 then Some([])
    else
      match (SplitFirst(pieces[0], '='), ParsePieces(pieces[1..]))
      case (Halves(k, v), Some(rest)) => Some([(k, v)] + rest)
      case _ => None
  }

  /** The ordered pairs of a `k=v&...` string; None if a piece has no `=`. */
  function ParseParams(s: string): Option<seq<(string, string)>> {
    ParsePieces(Split(s, '&'))
  }

  lemma {:induction false} ParsePiecesOf(params: seq<(string, string)>)
    requires PlainParams(params)
    ensures ParsePieces(Pieces(params)) == Some(params)
    decreases |params|
  {
    if |params| > 0 {
      var p := params[0];
      SplitFirstAt(p.0, '=', p.1);
      assert Piece(p) == p.0 + ['='] + p.1;
      assert Pieces(params)[1..] == Pieces(params[1..]);
      ParsePiecesOf(params[1..]);
      assert [p] + params[1..] == params;
    }
  }

  /**
   * The parameter string determines the parameters: reading it back gives the
   * same pairs in the same order (for at least one pair; the empty parameter
   * list and a single empty piece both render as "").
   */
  lemma ParseParamString(params: seq<(string, string)>)
    requires |params| >= 1 && PlainParams(params)
    ensures ParseParams(ParamString(params)) == Some(params)
  {
    var pieces := Pieces(params);
    forall i | 0 <= i < |pieces|
      ensures '&' !in pieces[i]
    {
      assert pieces[i] == params[i].0 + "=" + params[i].1;
    }
    SplitJoin(pieces, '&');
    ParsePiecesOf(params);
  }

  /** The example of the unit test: two pairs, in insertion order. */
  lemma ParamStringExample()
    ensures ParamString([("key_1", "val_1"), ("key_2", "val_2")]) == "key_1=val_1&key_2=val_2"
    ensures ParamString([]) == ""
  {
    var params := [("key_1", "val_1"), ("key_2", "val_2")];
    assert Piece(params[0]) == "key_1=val_1";
    assert Piece(params[1]) == "key_2=val_2";
    assert Pieces(params) == ["key_1=val_1", "key_2=val_2"];
  }

  lemma DecimalExample()
    ensures Decimal(99) == "99"
  {
  }
}
