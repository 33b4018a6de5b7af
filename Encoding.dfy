/** The one-row input table of the prediction handler and its one-hot
    encoding: `pd.DataFrame` over the four form fields followed by
    `pd.get_dummies` on the three text fields. */
module Encoding {
  import opened Wrappers
  import opened Frame

  /** The four form fields as entered. The year is not range-checked here:
      its 1960-2030 bound belongs to the input widget. */
  datatype RawInput = RawInput(countryIso: string, year: int, countryId: string, countryName: string)

  const DateField: string := "date"
  const IsoField: string := "countryiso3code"
  const IdField: string := "country.id"
  const NameField: string := "country.value"

  /** get_dummies' label for the indicator of `value` in `field`: the field
      name, the default separator `_`, then the value. */
  function Indicator(field: string, value: string): (name: string)
    ensures |name| == |field| + 1 + |value|
    ensures name[..|field|] == field && name[|field|] == '_' && name[|field| + 1..] == value
  {
    field + "_" + value
  }

  /** The rest of `s` after `prefix`, or None when `s` does not start with it. */
  function StripPrefix(prefix: string, s: string): (r: Option<string>)
    ensures r.Some? <==> |prefix| <= |s| && s[..|prefix|] == prefix
    ensures r.Some? ==> prefix + r.value == s
  {
    if |prefix| <= |s| && s[..|prefix|] == prefix then
      assert s == s[..|prefix|] + s[|prefix|..];
      Some(s[|prefix|..])
    else
      None
  }

  /** The encoded one-row table. `date` is not among the encoded columns, so
      it keeps its place ahead of the indicators and holds the year itself;
      each text field then contributes its single indicator, set to 1, in the
      order the fields are listed to get_dummies. */
  function Encode(x: RawInput): (r: Table)
    ensures |r| == 4
    ensures r[0] == Column(DateField, x.year)
    ensures forall i :: 1 <= i < 4 ==> r[i].value == 1
    ensures r[1].name == Indicator(IsoField, x.countryIso)
    ensures r[2].name == Indicator(IdField, x.countryId)
    ensures r[3].name == Indicator(NameField, x.countryName)
  {
    [ Column(DateField, x.year),
      Column(Indicator(IsoField, x.countryIso), 1),
      Column(Indicator(IdField, x.countryId), 1),
      Column(Indicator(NameField, x.countryName), 1) ]
  }

  /** Reads the form fields back from an encoded table: the inverse of Encode
      on its image, None on any table Encode cannot produce. */
  function Decode(t: Table): (r: Option<RawInput>)
  {
    if |t| == 4 && t[0].name == DateField && t[1].value == 1 && t[2].value == 1 && t[3].value == 1 then
      match (StripPrefix(IsoField + "_", t[1].name), StripPrefix(IdField + "_", t[2].name),
             StripPrefix(NameField + "_", t[3].name))
      case (Some(iso), Some(id), Some(name)) => Some(RawInput(iso, t[0].value, id, name))
      case _ => None
    else
      None
  }

  /** Encoding loses nothing: the entered fields are recovered from the table. */
  lemma DecodeEncode(x: RawInput)
    ensures Decode(Encode(x)) == Some(x)
  {
  }

  /** Every table that decodes is exactly the encoding of what it decodes to. */
  lemma EncodeDecode(t: Table, x: RawInput)
    requires Decode(t) == Some(x)
    ensures Encode(x) == t
  {
  }

  /** Different inputs never share an encoding. */
  lemma EncodeInjective(x: RawInput, y: RawInput)
    requires Encode(x) == Encode(y)
    ensures x == y
  {  }

  /** No two encoded columns share a label, whatever the text fields hold:
      `date` and the three field prefixes already differ within their first
      nine characters. */
  lemma EncodeDistinct(x: RawInput)
    ensures Distinct(Names(Encode(x)))
  {  }

  /** The year column is never one-hot encoded: `date` is a label of the
      encoded table and the cell under it is the entered year. */
  lemma EncodeKeepsYear(x: RawInput)
    ensures DateField in Names(Encode(x)) && ValueOf(Encode(x), DateField) == x.year
  {
  }
}
