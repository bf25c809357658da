/** The two addressing conventions of the document: URI-fragment references
    ("...#key") and bare keys, both looked up in an id-keyed table. */
module References {
  import opened Results

  /** The fragment of a URI reference: everything after its first '#', or
      nothing (Java's null) when the reference has no '#'. */
  function Fragment(url: string): (r: Option<string>)
    ensures r.None? <==> '#' !in url
    ensures r.Some? ==> |r.value| < |url|
  {
    if url == [] then None
    else if url[0] == '#' then Some(url[1..])
    else Fragment(url[1..])
  }

  /** Writing a key after a '#'-free base yields a reference whose fragment is that key. */
  lemma {:induction false} FragmentOfLink(base: string, key: string)
    requires '#' !in base
    ensures Fragment(base + "#" + key) == Some(key)
  {
    if base == [] {
      assert base + "#" + key == ['#'] + key;
    } else {
      assert (base + "#" + key)[1..] == base[1..] + "#" + key;
      FragmentOfLink(base[1..], key);
    }
  }

  /** Every reference that has a fragment is a '#'-free base, a '#' and the fragment. */
  lemma {:induction false} FragmentSplits(url: string)
    requires Fragment(url).Some?
    ensures exists n :: 0 <= n < |url| && url[n] == '#' && '#' !in url[..n] && url[n + 1..] == Fragment(url).value
  {
    if url[0] == '#' {
      assert url[..0] == [];
    } else {
      FragmentSplits(url[1..]);
      var n :| 0 <= n < |url[1..]| && url[1..][n] == '#' && '#' !in url[1..][..n] && url[1..][n + 1..] == Fragment(url[1..]).value;
      assert url[..n + 1] == [url[0]] + url[1..][..n];
      assert url[n + 2..] == url[1..][n + 1..];
    }
  }

  /** Looks a possibly-null key up in a table; absent for a null key or a missing entry,
      as `Map.get` returns null in both cases. */
  function Resolve<D>(table: map<string, D>, key: Option<string>): Option<D>
  {
    if key.Some? && key.value in table then Some(table[key.value]) else None
  }

  /** A fragment reference that names an entry of a table with the given key set. */
  predicate FragmentIn(url: string, keys: set<string>)
  {
    Fragment(url).Some? && Fragment(url).value in keys
  }
}
