/**
 * Turning a canonical Gleam response into the host's `Response` (`toNodeResponse`,
 * `toDenoResponse`, `toWorkersResponse`, which are the same code): status and body pass
 * through, and the header list is folded into a `Headers` table by `set`, so for a key
 * that occurs more than once the last value wins.
 */
module ResponseMaterializer {
  import opened Results
  import opened Native

  /** The canonical response; `headers` is absent when the record carries no header list. */
  datatype Response<B> = Response(status: int, headers: Option<seq<Header>>, body: B)

  /** The host response: its status, its header table and the body it was given. */
  datatype NativeResponse<B> = NativeResponse(status: int, headers: map<string, string>, body: B)

  /** The table that `set`-ting every header of `hs`, in order, into an empty table leaves. */
  function LastWins(hs: seq<Header>): map<string, string>
  {
    if hs == [] then map[]
    else LastWins(hs[..|hs| - 1])[hs[|hs| - 1].0 := hs[|hs| - 1].1]
  }

  /** Every key of the list, and only those, ends up in the table. */
  lemma {:induction false} LastWinsKeys(hs: seq<Header>)
    ensures forall k :: k in LastWins(hs) <==> exists i :: 0 <= i < |hs| && hs[i].0 == k
  {
    if hs != [] {
      var init := hs[..|hs| - 1];
      LastWinsKeys(init);
      assert LastWins(hs) == LastWins(init)[hs[|hs| - 1].0 := hs[|hs| - 1].1];
      forall k | k in LastWins(hs) ensures exists i :: 0 <= i < |hs| && hs[i].0 == k {
        if k != hs[|hs| - 1].0 {
          assert k in LastWins(init);
          var i :| 0 <= i < |init| && init[i].0 == k;
          assert hs[i] == init[i];
        }
      }
      forall k | exists i :: 0 <= i < |hs| && hs[i].0 == k ensures k in LastWins(hs) {
        var i :| 0 <= i < |hs| && hs[i].0 == k;
        if i < |init| {
          assert init[i] == hs[i];
        }
      }
    }
  }

  /** A key's value in the table is the value of its last occurrence in the list. */
  lemma {:induction false} LastWinsValue(hs: seq<Header>, i: nat)
    requires i < |hs|
    requires forall j :: i < j < |hs| ==> hs[j].0 != hs[i].0
    ensures hs[i].0 in LastWins(hs) && LastWins(hs)[hs[i].0] == hs[i].1
  {
    if i < |hs| - 1 {
      var init := hs[..|hs| - 1];
      assert init[i] == hs[i];
      forall j | i < j < |init| ensures init[j].0 != init[i].0 {
        assert init[j] == hs[j];
      }
      LastWinsValue(init, i);
    }
  }

  /** With no repeated key, every header of the list keeps its value in the table. */
  lemma DistinctKeysKept(hs: seq<Header>)
    requires forall i, j :: 0 <= i < j < |hs| ==> hs[i].0 != hs[j].0
    ensures forall i :: 0 <= i < |hs| ==> hs[i].0 in LastWins(hs) && LastWins(hs)[hs[i].0] == hs[i].1
  {
    forall i | 0 <= i < |hs| ensures hs[i].0 in LastWins(hs) && LastWins(hs)[hs[i].0] == hs[i].1 {
      LastWinsValue(hs, i);
    }
  }

  /** The shared body of the three materialisers: a fresh `Headers`, one `set` per entry, in order. */
  method Materialize<B>(resp: Response<B>) returns (native: NativeResponse<B>)
    ensures native.status == resp.status && native.body == resp.body
    ensures resp.headers.None? ==> native.headers == map[]
    ensures resp.headers.Some? ==> native.headers == LastWins(resp.headers.value)
  {
    var headers := new Headers();
    if resp.headers.Some? {
      var list := resp.headers.value;
      var i := 0;
      while i < |list|
        invariant 0 <= i <= |list|
        invariant headers.entries == LastWins(list[..i])
      {
        var (key, value) := list[i];
        headers.Set(key, value);
        assert list[..i + 1][..i] == list[..i];
        i := i + 1;
      }
      assert list[..|list|] == list;
    }
    native := NativeResponse(resp.status, headers.entries, resp.body);
  }
}
