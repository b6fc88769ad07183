// `buildPokemonImageUrl`: the official-artwork PNG hosted by PokeAPI on GitHub.

module PokemonImage {
  import opened JsCore
  import opened Decimal

  const ArtworkPrefix: string :=
    "https://raw.githubusercontent.com/PokeAPI/sprites/master/sprites/pokemon/other/official-artwork/"
  const ArtworkSuffix: string := ".png"

  /**
   * `buildPokemonImageUrl(id)` for an integer or absent id: null, undefined
   * and 0 are falsy and give null; any other id is written into the URL.
   */
  function BuildPokemonImageUrl(id: Option<int>): (r: Option<string>)
    ensures r.Some? <==> id.Some? && id.value != 0
    ensures r.Some? ==> ArtworkPrefix <= r.value && EndsWith(r.value, ArtworkSuffix)
  {
    if id.None? || id.value == 0 then None
    else Some(ArtworkPrefix + IntToDecimal(id.value) + ArtworkSuffix)
  }

  /** The text between the fixed prefix and ".png" of an artwork URL is the id's decimal text. */
  lemma ImageUrlCarriesId(id: int)
    requires id != 0
    ensures var u := BuildPokemonImageUrl(Some(id)).value;
            |u| == |ArtworkPrefix| + |IntToDecimal(id)| + |ArtworkSuffix|
            && u[|ArtworkPrefix|..|u| - |ArtworkSuffix|] == IntToDecimal(id)
  {
    var u := BuildPokemonImageUrl(Some(id)).value;
    assert u == ArtworkPrefix + IntToDecimal(id) + ArtworkSuffix;
    assert u[|ArtworkPrefix|..|u| - |ArtworkSuffix|] == IntToDecimal(id);
  }

  /** Distinct non-zero ids give distinct URLs. */
  lemma ImageUrlInjective(m: int, n: int)
    requires m != 0 && n != 0
    requires BuildPokemonImageUrl(Some(m)) == BuildPokemonImageUrl(Some(n))
    ensures m == n
  {
    ImageUrlCarriesId(m);
    ImageUrlCarriesId(n);
    IntToDecimalInjective(m, n);
  }
}
