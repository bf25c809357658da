/** The loader's table builder (`map`) and its element-wise list transform. */
module Tables {
  import opened Results

  /** The set of keys of a sequence of records. */
  ghost function KeysOf<S>(src: seq<S>, key: S -> string): set<string>
  {
    set i | 0 <= i < |src| :: key(src[i])
  }

  /** The table `map` builds: each record, in order, is converted and stored
      under its key, a later record overwriting an earlier one with the same
      key; the first conversion that fails aborts the whole build. */
  function LinkTable<S, D>(src: seq<S>, key: S -> string, convert: S -> Result<D>): (r: Result<map<string, D>>)
    ensures r.Ok? <==> forall i :: 0 <= i < |src| ==> convert(src[i]).Ok?
    ensures r.Ok? ==> r.value.Keys == KeysOf(src, key)
    ensures r.Ok? ==> forall k :: k in r.value ==>
      exists i :: 0 <= i < |src| && key(src[i]) == k && convert(src[i]) == Ok(r.value[k])
    ensures r.Err? ==> exists i :: (0 <= i < |src| && convert(src[i]) == Err(r.error) &&
                                    forall j :: 0 <= j < i ==> convert(src[j]).Ok?)
    decreases |src|
  {
    if src == [] then Ok(map[])
    else
      var n := |src| - 1;
      var init := LinkTable(src[..n], key, convert);
      assert forall i :: 0 <= i < n ==> src[..n][i] == src[i];
      if init.Err? then Err(init.error)
      else
        match convert(src[n])
        case Err(e) => Err(e)
        case Ok(d) =>
          assert KeysOf(src, key) == KeysOf(src[..n], key) + {key(src[n])};
          Ok(init.value[key(src[n]) := d])
  }

  /** Index i holds the last record of src whose key is k. */
  ghost predicate IsLastWith<S>(src: seq<S>, key: S -> string, k: string, i: int)
  {
    0 <= i < |src| && key(src[i]) == k && forall j :: i < j < |src| ==> key(src[j]) != k
  }

  /** Last write wins: the entry under a key is the conversion of the LAST record with that key. */
  lemma {:induction false} LinkTableLastWins<S, D>(src: seq<S>, key: S -> string, convert: S -> Result<D>, k: string)
    returns (i: nat)
    requires LinkTable(src, key, convert).Ok?
    requires k in LinkTable(src, key, convert).value
    ensures IsLastWith(src, key, k, i)
    ensures convert(src[i]) == Ok(LinkTable(src, key, convert).value[k])
  {
    var n := |src| - 1;
    var t := LinkTable(src, key, convert).value;
    var prefix := src[..n];
    var init := LinkTable(prefix, key, convert);
    assert t == init.value[key(src[n]) := convert(src[n]).value];
    if key(src[n]) == k {
      i := n;
    } else {
      i := LinkTableLastWins(prefix, key, convert, k);
      assert prefix[i] == src[i];
      assert forall j :: i < j < n ==> prefix[j] == src[j];
    }
  }

  /** Every entry of a built table is the conversion of the last record with its key. */
  lemma LinkTableEntries<S, D>(src: seq<S>, key: S -> string, convert: S -> Result<D>)
    ensures LinkTable(src, key, convert).Ok? ==>
      forall k :: k in LinkTable(src, key, convert).value ==>
        exists i :: IsLastWith(src, key, k, i) && convert(src[i]) == Ok(LinkTable(src, key, convert).value[k])
  {
    if LinkTable(src, key, convert).Ok? {
      var t := LinkTable(src, key, convert).value;
      forall k | k in t
        ensures exists i :: IsLastWith(src, key, k, i) && convert(src[i]) == Ok(t[k])
      {
        var i := LinkTableLastWins(src, key, convert, k);
      }
    }
  }

  /** The loop of `map`: fills a table record by record and stops at the first failing conversion. */
  method BuildTable<S, D>(src: seq<S>, key: S -> string, convert: S -> Result<D>) returns (r: Result<map<string, D>>)
    ensures r == LinkTable(src, key, convert)
  {
    var prepared: map<string, D> := map[];
    var i := 0;
    while i < |src|
      invariant 0 <= i <= |src|
      invariant LinkTable(src[..i], key, convert) == Ok(prepared)
    {
      var item := src[i];
      var converted := convert(item);
      if converted.Err? {
        assert forall j :: 0 <= j < i ==> src[..i][j] == src[j];
        assert LinkTable(src, key, convert).Err?;
        return Err(converted.error);
      }
      assert src[..i + 1][..i] == src[..i];
      prepared := prepared[key(item) := converted.value];
      i := i + 1;
    }
    assert src[..i] == src;
    r := Ok(prepared);
  }

  /** An eager element-wise transform (`Lists.transform` forced at once): the
      results in input order, or the failure of the first element that fails. */
  function MapAll<S, D>(src: seq<S>, convert: S -> Result<D>): (r: Result<seq<D>>)
    ensures r.Ok? <==> forall i :: 0 <= i < |src| ==> convert(src[i]).Ok?
    ensures r.Ok? ==> |r.value| == |src| && forall i :: 0 <= i < |src| ==> convert(src[i]) == Ok(r.value[i])
    ensures r.Err? ==> exists i :: (0 <= i < |src| && convert(src[i]) == Err(r.error) &&
                                    forall j :: 0 <= j < i ==> convert(src[j]).Ok?)
    decreases |src|
  {
    if src == [] then Ok([])
    else
      match convert(src[0])
      case Err(e) => Err(e)
      case Ok(d) =>
        var rest := MapAll(src[1..], convert);
        assert forall i :: 1 <= i < |src| ==> src[1..][i - 1] == src[i];
        if rest.Err? then
          Err(rest.error)
        else
          Ok([d] + rest.value)
  }
}
