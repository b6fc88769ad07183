// `prettyStat`: the label shown for a PokeAPI base-stat name. The
// translation function and `capitalizeString` are not interpreted: the
// label says which one is applied to what.

module PrettyStat {
  import opened JsCore

  datatype StatLabel =
    | Text(text: string)         // a fixed label
    | Translation(key: string)   // `i18n.t(key)`
    | Capitalized(arg: string)   // `capitalizeString(arg)`

  /** The fixed lookup table of known stat names. */
  const KnownStats: map<string, StatLabel> := map[
    "hp" := Text("HP"),
    "attack" := Translation("pokemon.attack"),
    "defense" := Translation("pokemon.defense"),
    "special-attack" := Text("Sp. Atk"),
    "special-defense" := Text("Sp. Def"),
    "speed" := Translation("pokemon.speed")
  ]

  /** `prettyStat(k)`: a known name's table entry, otherwise the name with its first "-" made a space, capitalised. */
  function PrettyStat(k: string): (r: StatLabel)
    ensures r.Capitalized? <==> k !in KnownStats
    ensures r.Capitalized? ==> |r.arg| == |k|
    ensures r.Capitalized? && '-' !in k ==> r.arg == k
    ensures r.Capitalized? && '-' in k ==>
              var i := IndexOf(k, '-').value;
              r.arg[..i] == k[..i] && r.arg[i] == ' ' && r.arg[i + 1..] == k[i + 1..]
  {
    if k in KnownStats then KnownStats[k] else Capitalized(ReplaceFirst(k, '-', ' '))
  }

  /** The six stat names PokeAPI reports get their table label. */
  lemma KnownStatLabels()
    ensures PrettyStat("hp") == Text("HP")
    ensures PrettyStat("attack") == Translation("pokemon.attack")
    ensures PrettyStat("defense") == Translation("pokemon.defense")
    ensures PrettyStat("special-attack") == Text("Sp. Atk")
    ensures PrettyStat("special-defense") == Text("Sp. Def")
    ensures PrettyStat("speed") == Translation("pokemon.speed")
  {
  }

  /** Only the first "-" of an unknown name becomes a space; later ones stay. */
  lemma OnlyFirstHyphenReplaced(k: string)
    requires k !in KnownStats
    ensures var a := PrettyStat(k).arg;
            forall j :: 0 <= j < |k| && a[j] != k[j] ==> k[j] == '-' && a[j] == ' ' && '-' !in k[..j]
  {
    var a := PrettyStat(k).arg;
    if '-' in k {
      var i := IndexOf(k, '-').value;
      forall j | 0 <= j < |k| && j != i ensures a[j] == k[j] {
        if j < i {
          assert a[j] == a[..i][j];
        } else {
          assert a[j] == a[i + 1..][j - i - 1];
        }
      }
    }
  }
}
