/** shortenAddress: display form `0x1234...5678` of a wallet address. */
module Wallet {
  import opened Js

  const DEFAULT_CHARS: int := 4

  /** Looks like an address: starts with "0x" and is longer than 10 characters. */
  predicate LooksLikeAddress(a: string) {
    StartsWith(a, "0x") && |a| > 10
  }

  function ShortenAddress(address: Option<string>, chars: int): (r: string)
    // Empty exactly for an absent or empty address.
    ensures r == "" <==> !Truthy(address)
    ensures Truthy(address) && !LooksLikeAddress(address.value) ==> r == address.value
    // An address becomes at most two pieces of it around "...".
    ensures Truthy(address) && LooksLikeAddress(address.value) ==>
              3 <= |r| <= 2 * |address.value| + 3 && Contains(r, "...")
  {
    if !Truthy(address) then ""
    else if !LooksLikeAddress(address.value) then address.value
    else
      var a := address.value;
      var head := Substring(a, 0, chars + 2);
      var r := head + "..." + SubstringFrom(a, |a| - chars);
      assert r[|head|..|head| + 3] == "...";
      OccursContains(r, "...", |head|);
      r
  }

  /** An absent or empty address gives "", and a string that does not look
      like an address comes back unchanged, whatever `chars` is. */
  lemma ShortenPassThrough(a: string, chars: int)
    ensures ShortenAddress(None, chars) == "" && ShortenAddress(Some(""), chars) == ""
    ensures !LooksLikeAddress(a) ==> ShortenAddress(Some(a), chars) == a
  {
  }

  /** With `0 <= chars` and `chars + 2 <= |address|`, the short form is the
      first chars+2 characters, "...", and the last chars characters: it has
      2*chars+5 characters and still starts with "0x". */
  lemma ShortenedShape(a: string, chars: int)
    requires LooksLikeAddress(a)
    requires 0 <= chars && chars + 2 <= |a|
    ensures var r := ShortenAddress(Some(a), chars);
            && r == a[..chars + 2] + "..." + a[|a| - chars..]
            && |r| == 2 * chars + 5
            && StartsWith(r, "0x")
            && EndsWith(r, a[|a| - chars..])
  {
    var r := ShortenAddress(Some(a), chars);
    assert r[..2] == a[..chars + 2][..2];
  }

  /** With the default of 4, a 42-character address becomes 13 characters. */
  lemma ShortenedDefault(a: string)
    requires LooksLikeAddress(a) && |a| == 42
    ensures |ShortenAddress(Some(a), DEFAULT_CHARS)| == 13
  {
    ShortenedShape(a, DEFAULT_CHARS);
  }
}
