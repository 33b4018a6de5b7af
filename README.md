# Population predictor: feature encoding and alignment

The World Bank population predictor is a single Streamlit page. When the user
presses "Predict Population", the handler builds a one-row table from four
form fields: the ISO-3 country code, the year, the 2-letter country id and the
country name. It one-hot encodes the three text fields with `pd.get_dummies`.
It then aligns the result to the column list the scikit-learn model was trained
on before calling `model.predict`. This project models that encoding and
alignment step, which is all of the program's own logic, and proves its
properties.

- `Frame`: the one-row table as a sequence of named integer cells. It also
  holds the pandas operations the handler uses: `df.columns`, label lookup and
  `df[list]` selection. Selection of a missing label is an error value
  (pandas raises `KeyError`).
- `Encoding`: `pd.DataFrame` over the four fields followed by `get_dummies`.
  The `date` column stays first and holds the year. Three indicators follow,
  named `<field>_<value>`, each holding 1. `Decode` is the encoding's inverse.
  It is stated only to prove that encoding loses nothing.
- `Alignment`: the lookup of `feature_names_in_` (absent means the empty list).
  The zero-fill loop is an imperative method proved against a specification
  function. The final projection to the training list applies only when the
  list is not empty.
- `Pipeline`: the handler's steps in order, plus the properties of the whole
  transform on raw inputs and two concrete Kenya scenarios.

## Model

| member | source | states |
|---|---|---|
| Encoding.Encode | app.py:58-66 | the encoded table has four columns: `date` holding the entered year, then `countryiso3code_<iso>`, `country.id_<id>`, `country.value_<name>`, each holding 1 |
| Encoding.Indicator | app.py:66 | get_dummies' indicator label is the field name, then `_`, then the entered value, with nothing dropped or added |
| Encoding.DecodeEncode | app.py:58-66 | the entered fields can be read back from the encoded table, so encoding loses nothing |
| Encoding.EncodeDecode | app.py:58-66 | every table that decodes is exactly the encoding of the fields it decodes to (the converse of the round trip) |
| Encoding.EncodeInjective | app.py:58-66 | two different form submissions never produce the same encoded table |
| Encoding.EncodeDistinct | app.py:58-66 | the four encoded labels are pairwise different whatever text the user enters, so the table never has a duplicate column |
| Encoding.EncodeKeepsYear | app.py:60-66 | `date` is not one-hot encoded: it is a column of the encoded table and holds the entered year |
| Frame.Names | app.py:74 | `df.columns` lists one label per column, in column order |
| Frame.FirstIndex | app.py:74-79 | label lookup finds the first column with that label, and no earlier column carries it |
| Frame.ValueOf | app.py:79 | the cell read under a label is the cell of a column carrying that label (the first one) |
| Frame.ValueOfExtended | app.py:73-79 | appending columns to a table leaves the lookup of its existing labels unchanged, and a label it lacked is found only among the appended columns |
| Frame.Select | app.py:79 | `df[list]` succeeds exactly when every listed label is a column; the result's labels are the list, in order, each holding the cell stored under that label |
| Alignment.TrainingColumns | app.py:70 | the training list is the model's `feature_names_in_` when the model has that attribute, and the empty list otherwise |
| Alignment.AddIfMissing | app.py:74-75 | one pass of the loop: afterwards the label is a column; a table that had it is unchanged; otherwise a single column holding 0 is appended after the existing ones |
| Alignment.ZeroFilled | app.py:73-75 | after the loop, the original columns keep their positions and cells; appended columns hold 0 and were absent before; the labels are those of the table plus those of the list; no duplicate is introduced; a table that already has every label is unchanged |
| Alignment.ZeroFill | app.py:73-75 | the loop computes `ZeroFilled`, and every label of the training list is a column afterwards |
| Alignment.ValueOfZeroFilled | app.py:73-75 | after zero-filling, a label keeps its original cell if it was a column and holds 0 if the loop added it |
| Alignment.Align | app.py:73-79 | with an empty list the table passes through unchanged; otherwise its labels equal the list in order (unlisted columns dropped), and each holds the input's cell if present and 0 otherwise |
| Alignment.SelectAfterZeroFill | app.py:73-79 | the projection after zero-filling never meets a missing label |
| Alignment.AlignIdempotent | app.py:73-79 | aligning an aligned table again to the same list changes nothing |
| Alignment.AlignToOwnLabels | app.py:73-79 | a duplicate-free table aligned to its own label list comes back unchanged |
| Pipeline.PrepareFeatures | app.py:58-79 | the handler's encode, schema lookup, zero-fill and projection steps yield `Align(Encode(input), TrainingColumns(model))` |
| Pipeline.NoFeatureNamesPassThrough | app.py:70-79 | a model without `feature_names_in_` receives the encoded table unchanged |
| Pipeline.AlignKeepsYear | app.py:58-79 | wherever `date` survives alignment, it holds the entered year |
| Pipeline.AlignUnseenIsZero | app.py:58-79 | a training label the encoding did not produce (an unseen category) reaches the model as 0 at its listed position |
| Pipeline.AlignSeenKeepsEncoding | app.py:58-79 | a training label the encoding did produce reaches the model with its encoded cell (the year for `date`, 1 for an indicator) |
| Pipeline.KenyaWithUnseenCode | app.py:58-79 | KEN / 2020 / KE / Kenya against `["date", "countryiso3code_USA"]` gives `[("date", 2020), ("countryiso3code_USA", 0)]` |
| Pipeline.KenyaWithMatchingList | app.py:58-79 | KEN / 2020 / KE / Kenya against its own four labels gives the year and three indicators set to 1 |

## Left out

- The Streamlit page (app.py:7-11, 25-52, 86-102, 112-142) is presentation only. This includes the sidebar examples.
- Model loading (app.py:14-23) is file I/O through `joblib.load`, cached by `st.cache_resource`. The model appears only as a value that may or may not carry `feature_names_in_`.
- `model.predict` (app.py:83) is an opaque scikit-learn estimator with floating-point output. The model ends at the table passed to it.
- The display formatting `int(prediction):,` (app.py:95, 102) is a float-to-int conversion plus locale-style formatting.
- The error branch (app.py:104-110) only reports to the page. Its `if training_columns` test raises for a numpy array of more than one name.
- The 1960-2030 year range (app.py:36) is enforced by the input widget, not by the transform. It is not a precondition here. The year is an unbounded integer, so int64 limits are not modelled; widget values never approach them.
- pandas dtypes are not modelled: indicators are bool or uint8 and `date` is int64. Every cell is an integer, with indicators as 0 and 1.
- Frame.ValueOf: reads the first column carrying a label. On a table with a repeated label, pandas reads every such column. That case never arises here: the encoded table has no repeated label (`EncodeDistinct`), and zero-filling adds none (`ZeroFilled`).
- Frame.Select: promises exactly one column per listed label. On a table with a repeated label, pandas `df[list]` returns every column carrying it, so the result has more columns than the list names. Not reached here, for the reason above.
- Alignment.Align: its names-equal-the-list clause rests on Frame.Select and shares that limit. Not reached here, for the reason above.
- An empty or missing training list raises no error: the handler passes the encoded table through unaligned (app.py:70, 78), and so does the model.
