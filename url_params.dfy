/** `Utils.getUrlParams`: the page's query string read into a key/value dictionary.
    `decodeURIComponent` is a parameter of this module: `None` stands for the `URIError`
    it throws on a malformed escape, which is not caught and so aborts the whole read. */
module UrlParams {
  import opened Common
  import opened Strings

  type Decoder = string -> Option<string>

  /** The text after the leading `?` of `location.search` (`substring(1)`; empty stays empty). */
  function QueryOf(search: string): (q: string)
    ensures search != [] ==> search == [search[0]] + q
    ensures search == [] ==> q == []
  {
    if search == [] then [] else search[1..]
  }

  /** One `&`-separated piece split on `=`: the key is the text before the first `=`, the
      value the text between the first and the second `=` (empty when there is no `=`).
      A piece with an empty key gives nothing. */
  function PairOf(piece: string): (kv: Option<(string, string)>)
    ensures kv.None? <==> piece == [] || piece[0] == '='
    ensures kv.Some? ==> var (k, v) := kv.value;
      && k != [] && '=' !in k && '=' !in v
      && ((piece == k && v == []) || piece == k + "=" + v || k + "=" + v + "=" <= piece)
  {
    var parts := Split(piece, '=');
    JoinSplit(piece, '=');
    assert piece != [] ==> (piece[0] == '=' <==> parts[0] == []);
    if parts[0] == [] then None
    else
      var v := if |parts| > 1 then parts[1] else [];
      assert |parts| == 2 ==> piece == parts[0] + "=" + v;
      assert |parts| > 2 ==> piece == parts[0] + "=" + v + "=" + Join(parts[2..], '=');
      Some((parts[0], v))
  }

  /** Folds one piece into the dictionary read so far: an empty key is skipped, a decoding
      failure aborts, otherwise the decoded key is (re)bound to the decoded value. */
  function AddPiece(acc: Option<map<string, string>>, piece: string, decode: Decoder): (r: Option<map<string, string>>)
    ensures acc.None? ==> r.None?
    ensures PairOf(piece).None? ==> r == acc
  {
    match acc
    case None => None
    case Some(m) =>
      match PairOf(piece)
      case None => acc
      case Some((k, v)) =>
        match (decode(k), decode(v))
        case (Some(dk), Some(dv)) => Some(m[dk := dv])
        case _ => None
  }

  /** The dictionary read from `pieces` in order: the specification of the loop in `GetUrlParams`. */
  function Params(pieces: seq<string>, decode: Decoder): Option<map<string, string>>
    decreases |pieces|
  {
    if pieces == [] then Some(map[])
    else AddPiece(Params(pieces[..|pieces| - 1], decode), pieces[|pieces| - 1], decode)
  }

  /** The decoded key of a piece, if it has a non-empty key that decodes. */
  function DecodedKey(piece: string, decode: Decoder): Option<string>
  {
    match PairOf(piece)
    case None => None
    case Some((k, _)) => decode(k)
  }

  /** `getUrlParams` on the given `location.search`: `None` when a decoding throws. */
  method GetUrlParams(search: string, decode: Decoder) returns (params: Option<map<string, string>>)
    ensures params == Params(Split(QueryOf(search), '&'), decode)
  {
    var pieces := Split(QueryOf(search), '&');
    var m: map<string, string> := map[];
    for i := 0 to |pieces|
      invariant Params(pieces[..i], decode) == Some(m)
    {
      assert pieces[..i + 1][..i] == pieces[..i];
      var kv := PairOf(pieces[i]);
      if kv.Some? {
        var key := decode(kv.value.0);
        var value := decode(kv.value.1);
        if key.None? || value.None? {
          ParamsNoneSticks(pieces, decode, i + 1, |pieces|);
          assert pieces[..|pieces|] == pieces;
          return None;
        }
        m := m[key.value := value.value];
      }
    }
    assert pieces[..|pieces|] == pieces;
    params := Some(m);
  }

  /** Once a decoding has failed, reading more pieces cannot recover. */
  lemma {:induction false} ParamsNoneSticks(pieces: seq<string>, decode: Decoder, i: nat, j: nat)
    requires i <= j <= |pieces|
    requires Params(pieces[..i], decode).None?
    ensures Params(pieces[..j], decode).None?
    decreases j - i
  {
    if i < j {
      assert pieces[..i + 1][..i] == pieces[..i];
      ParamsNoneSticks(pieces, decode, i + 1, j);
    }
  }

  /** Reading is all-or-nothing: it fails exactly when some piece with a non-empty key has a
      key or a value that does not decode. */
  lemma {:induction false} ParamsFailure(pieces: seq<string>, decode: Decoder)
    ensures Params(pieces, decode).None? <==>
      exists i :: 0 <= i < |pieces| && PairOf(pieces[i]).Some? &&
        (decode(PairOf(pieces[i]).value.0).None? || decode(PairOf(pieces[i]).value.1).None?)
    decreases |pieces|
  {
    if pieces != [] {
      var init := pieces[..|pieces| - 1];
      ParamsFailure(init, decode);
      forall i | 0 <= i < |init| ensures init[i] == pieces[i] { }
    }
  }

  /** A key is in the dictionary exactly when the key of some piece decodes to it. */
  lemma {:induction false} ParamsKeys(pieces: seq<string>, decode: Decoder, key: string)
    requires Params(pieces, decode).Some?
    ensures key in Params(pieces, decode).value <==>
      exists i :: 0 <= i < |pieces| && DecodedKey(pieces[i], decode) == Some(key)
    decreases |pieces|
  {
    if pieces != [] {
      var n := |pieces| - 1;
      var init := pieces[..n];
      assert Params(pieces, decode) == AddPiece(Params(init, decode), pieces[n], decode);
      var m0 := Params(init, decode).value;
      var m := Params(pieces, decode).value;
      ParamsKeys(init, decode, key);
      assert forall i :: 0 <= i < n ==> init[i] == pieces[i];
      if DecodedKey(pieces[n], decode) == Some(key) {
        assert key in m;
      } else if PairOf(pieces[n]).None? {
        assert m == m0;
      } else {
        var (k, v) := PairOf(pieces[n]).value;
        assert m == m0[decode(k).value := decode(v).value];
      }
    }
  }

  /** The value bound to a key is the decoded value of the LAST piece whose key decodes to
      it: a later duplicate overwrites an earlier one. */
  lemma {:induction false} ParamsLastWins(pieces: seq<string>, decode: Decoder, key: string, i: nat)
    requires Params(pieces, decode).Some?
    requires i < |pieces| && DecodedKey(pieces[i], decode) == Some(key)
    requires forall j :: i < j < |pieces| ==> DecodedKey(pieces[j], decode) != Some(key)
    ensures key in Params(pieces, decode).value
    ensures Some(Params(pieces, decode).value[key]) == decode(PairOf(pieces[i]).value.1)
    decreases |pieces|
  {
    var n := |pieces| - 1;
    var init := pieces[..n];
    assert Params(pieces, decode) == AddPiece(Params(init, decode), pieces[n], decode);
    var m0 := Params(init, decode).value;
    var m := Params(pieces, decode).value;
    if i == n {
      var (k, v) := PairOf(pieces[n]).value;
      assert m == m0[key := decode(v).value];
    } else {
      assert init[i] == pieces[i];
      assert forall j :: i < j < |init| ==> init[j] == pieces[j];
      ParamsLastWins(init, decode, key, i);
      if PairOf(pieces[n]).None? {
        assert m == m0;
      } else {
        var (k, v) := PairOf(pieces[n]).value;
        assert decode(k) != Some(key);
        assert m == m0[decode(k).value := decode(v).value];
      }
    }
  }
}
