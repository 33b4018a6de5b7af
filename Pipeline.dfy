/** The prediction handler's feature preparation, start to finish: encode the
    four form fields, look up the training column list on the model,
    zero-fill, and project when the list is not empty. The table it yields is
    what `model.predict` receives. */
module Pipeline {
  import opened Wrappers
  import opened Frame
  import opened Encoding
  import opened Alignment

  /** The steps in the handler's order, each done the way the handler does it. */
  method PrepareFeatures(x: RawInput, m: TrainedModel) returns (features: Table)
    ensures features == Align(Encode(x), TrainingColumns(m))
  {
    var encoded := Encode(x);
    var columns := TrainingColumns(m);
    var filled := ZeroFill(encoded, columns);
    if |columns| > 0 {
      var selected := Select(filled, columns);
      features := selected.value;
    } else {
      features := filled;
    }
  }

  /** A model without `feature_names_in_` gets the encoded table as it is. */
  lemma NoFeatureNamesPassThrough(x: RawInput, m: TrainedModel)
    requires m.featureNamesIn.None?
    ensures Align(Encode(x), TrainingColumns(m)) == Encode(x)
  {
  }

  /** The year reaches the model unencoded: wherever `date` survives
      alignment, the cell under it is the entered year. */
  lemma AlignKeepsYear(x: RawInput, schema: seq<string>)
    ensures forall i :: 0 <= i < |Align(Encode(x), schema)| && Align(Encode(x), schema)[i].name == DateField ==>
      Align(Encode(x), schema)[i].value == x.year
  {
  }

  /** Every label of the training list that the encoding did not produce (an
      unseen category, or any other foreign label) reaches the model as 0. */
  lemma AlignUnseenIsZero(x: RawInput, schema: seq<string>, i: nat)
    requires i < |schema|
    requires schema[i] !in Names(Encode(x))
    ensures |Align(Encode(x), schema)| == |schema|
    ensures Align(Encode(x), schema)[i] == Column(schema[i], 0)
  {
  }

  /** The four labels the encoding produced reach the model with their
      encoded cells, wherever the training list places them. */
  lemma AlignSeenKeepsEncoding(x: RawInput, schema: seq<string>, i: nat)
    requires i < |schema|
    requires schema[i] in Names(Encode(x))
    ensures |Align(Encode(x), schema)| == |schema|
    ensures Align(Encode(x), schema)[i].name == schema[i]
    ensures Align(Encode(x), schema)[i].value == if schema[i] == DateField then x.year else 1
  {
  }

  /** Kenya, 2020, against a list that names the year and an unseen code:
      the unseen indicator is zeroed and the Kenyan indicators are dropped. */
  lemma KenyaWithUnseenCode()
    ensures Align(Encode(RawInput("KEN", 2020, "KE", "Kenya")), ["date", "countryiso3code_USA"])
         == [Column("date", 2020), Column("countryiso3code_USA", 0)]
  {  }

  /** Kenya, 2020, against a list naming exactly its four encoded labels:
      year and three indicators set to 1. */
  lemma KenyaWithMatchingList()
    ensures Align(Encode(RawInput("KEN", 2020, "KE", "Kenya")),
                  ["date", "countryiso3code_KEN", "country.id_KE", "country.value_Kenya"])
         == [Column("date", 2020), Column("countryiso3code_KEN", 1),
             Column("country.id_KE", 1), Column("country.value_Kenya", 1)]
  {
    var x := RawInput("KEN", 2020, "KE", "Kenya");
    var schema := ["date", "countryiso3code_KEN", "country.id_KE", "country.value_Kenya"];
    var t := Encode(x);
    assert Names(t) == schema by {
      assert forall i :: 0 <= i < 4 ==> Names(t)[i] == schema[i];
    }
    EncodeDistinct(x);
    AlignToOwnLabels(t);
  }
}
