/** `clean_commodity_name` of src/utils.py: lower-case, strip, then map known aliases to a canonical name. */
module CommodityNames {
  import opened Text

  const Aliases: map<string, string> := map[
    "natgas" := "natural_gas",
    "ng" := "natural_gas",
    "natural gas" := "natural_gas",
    "crude" := "crude_oil",
    "oil" := "crude_oil",
    "wti" := "crude_oil",
    "brent" := "crude_oil",
    "power" := "electricity",
    "electric" := "electricity",
    "electricity" := "electricity"
  ]

  /** The lookup key: `commodity.lower().strip()`. */
  function Normalized(commodity: string): (key: string)
    ensures IsStripped(key)
    ensures forall k :: 0 <= k < |key| ==> !IsUpper(key[k])
  {
    var lowered := Lower(commodity);
    var key := Strip(lowered);
    forall k | 0 <= k < |key| ensures !IsUpper(key[k]) {
      StripChars(lowered, k);
    }
    key
  }

  /** `clean_commodity_name`: the canonical name of a listed alias, otherwise the lookup key.
      Either way the result is stripped and has no upper-case letter. */
  function CleanCommodityName(commodity: string): (r: string)
    ensures IsStripped(r) && forall k :: 0 <= k < |r| ==> !IsUpper(r[k])
  {
    var key := Normalized(commodity);
    if key in Aliases then
      AliasTargetsAreIdentifiers();
      IdentifierFixed(Aliases[key]);
      Aliases[key]
    else key
  }

  /** Every alias maps to a name of lower-case letters and underscores. */
  lemma AliasTargetsAreIdentifiers()
    ensures forall key :: key in Aliases ==> IsIdentifier(Aliases[key])
  {
    assert forall key :: key in Aliases ==> Aliases[key] in {"natural_gas", "crude_oil", "electricity"};
    assert IsIdentifier("natural_gas") && IsIdentifier("crude_oil") && IsIdentifier("electricity");
  }

  /** A listed alias, in any letter case and with surrounding whitespace, yields its canonical name. */
  lemma CleanAlias(commodity: string)
    requires Normalized(commodity) in Aliases
    ensures CleanCommodityName(commodity) == Aliases[Normalized(commodity)]
    ensures CleanCommodityName(commodity) in {"natural_gas", "crude_oil", "electricity"}
  {
  }

  /** Any other input comes back lower-cased and stripped. */
  lemma CleanOther(commodity: string)
    requires Normalized(commodity) !in Aliases
    ensures CleanCommodityName(commodity) == Strip(Lower(commodity))
  {
  }

  lemma NormalizedFixed(s: string)
    requires IsStripped(s) && forall k :: 0 <= k < |s| ==> !IsUpper(s[k])
    ensures Normalized(s) == s
  {
    LowerOfLower(s);
    StripOfStripped(s);
  }

  /** Lower-case ASCII letters and underscores only, as the canonical names are. */
  predicate IsIdentifier(s: string)
  {
    forall k :: 0 <= k < |s| ==> 'a' <= s[k] <= 'z' || s[k] == '_'
  }

  lemma IdentifierFixed(s: string)
    requires IsIdentifier(s)
    ensures Normalized(s) == s
  {
    assert forall k :: 0 <= k < |s| ==> !IsUpper(s[k]) && !IsSpace(s[k]);
    NormalizedFixed(s);
  }

  /** The canonical names are themselves clean. */
  lemma CanonicalFixed(name: string)
    requires name in {"natural_gas", "crude_oil", "electricity"}
    ensures CleanCommodityName(name) == name
  {
    assert IsIdentifier(name);
    IdentifierFixed(name);
    assert name in Aliases ==> Aliases[name] == name;
  }

  /** Cleaning a cleaned name changes nothing. */
  lemma {:induction false} CleanIdempotent(commodity: string)
    ensures CleanCommodityName(CleanCommodityName(commodity)) == CleanCommodityName(commodity)
  {
    var key := Normalized(commodity);
    if key in Aliases {
      CanonicalFixed(Aliases[key]);
    } else {
      NormalizedFixed(key);
    }
  }
}
