# Binary target encoder — Dafny model

This project models the target encoder in the preprocessing stage of a
binary-classification training pipeline. The encoder is given the name of
the target column and an ordered list of allowed class labels. It builds a
two-entry encoding table: the first allowed label maps to 0, and the second
maps to 1, the positive class. Fitting it does nothing. Transforming a data
frame has three outcomes:

- the frame has no target column, and the result is `None` (`Absent`);
- validation fails with a value error (`Failed`): either the column does not
  hold exactly two distinct labels, or those two labels are not both among
  the allowed ones;
- the column is encoded cell by cell through the table (`Encoded`).

Files:

- `label_sets.dfy`, module `LabelSets`: the data frame as a map from column
  name to a sequence of strings, `Distinct` (Python's `set(...)`), and the
  set-size lemmas that validation relies on.
- `target_encoder.dfy`, module `TargetEncoding`: the encoder, its
  construction, the encoding table, `Fit`, `Transform`, and the three module
  functions that wrap them.
- `encoder_properties.dfy`, module `TargetEncoderProperties`: lemmas that
  relate calls to each other or that hold only for particular encoders.

Three points about how the code behaves, which the model keeps:

- A list of fewer than two allowed values makes the constructor fail with an
  index error. The model returns that as `Construction.IndexError`. An
  `Encoder` value therefore always holds at least two classes (`ClassList`).
- The table holds only the first two allowed values, but validation checks
  observed labels against all of them. A label from position 2 onward passes
  validation yet has no table entry. `Series.map` then gives NaN, which the
  model represents as `Cell.NaN` (`ThirdAllowedValueHasNoCode`).
- When the first two allowed values are equal, the dict literal keeps one key
  and it maps to 1. With exactly two allowed values, validation can then never
  succeed (`DuplicatePairNeverEncodes`).

## Model

| member | source | states |
|---|---|---|
| TargetEncoding.NewEncoder | src/preprocessing/target_encoder.py:10-26 | construction succeeds exactly when there are at least two allowed values, and keeps the target name and labels in order; otherwise it reports an index error with the list's length |
| TargetEncoding.ClassEncoding | src/preprocessing/target_encoder.py:14-26 | the table's keys are exactly the first two allowed labels; the second maps to 1 (positive class); the first maps to 0 when the two differ |
| TargetEncoding.EncodeLabels | src/preprocessing/target_encoder.py:53 | mapping a column through the table keeps its length, and cell i is the table lookup of label i (NaN when the label has no entry) |
| TargetEncoding.Fit | src/preprocessing/target_encoder.py:28-35 | fitting returns the encoder with its target field and classes unchanged, whatever the data |
| TargetEncoding.Transform | src/preprocessing/target_encoder.py:37-56 | None exactly when the target column is missing; a class-count error carrying the observed count and labels exactly when the column does not hold two distinct labels; a mismatch error when the two labels are not both allowed; success exactly when two labels are observed and both are allowed, and then the output has the column's length and cell i is the documented code of label i (1 for the second allowed value, 0 for the first, NaN for any other) |
| TargetEncoding.GetTargetEncoder | src/preprocessing/target_encoder.py:59-73 | the encoder built from a schema has the schema's target as its field and the schema's allowed target values as its classes; it fails as the constructor does when fewer than two values are given |
| TargetEncoding.TrainTargetEncoder | src/preprocessing/target_encoder.py:77-91 | training returns the encoder with its target field and classes unchanged |
| TargetEncoding.TransformTargets | src/preprocessing/target_encoder.py:94-107 | transforming targets gives the same result as the encoder's own transform |
| TargetEncoderProperties.SuccessIffObservedIsAllowed | src/preprocessing/target_encoder.py:48-53 | with two distinct allowed values and a target column present, encoding succeeds if and only if the column's set of labels equals the allowed pair |
| TargetEncoderProperties.DuplicatePairNeverEncodes | src/preprocessing/target_encoder.py:24-52 | with exactly two allowed values that are equal, no frame is ever encoded successfully |
| TargetEncoderProperties.EncodedBitsRecoverLabels | src/preprocessing/target_encoder.py:14-53 | with two allowed values, a successful transform has distinct classes; the first value is coded 0 and the second 1; every cell is the bit 0 or 1; indexing the allowed values by that bit gives back the input label |
| TargetEncoderProperties.ThirdAllowedValueHasNoCode | src/preprocessing/target_encoder.py:25-53 | with allowed values A, B, C, the column A, C, A passes validation and is encoded as 0, NaN, 0 |
| TargetEncoderProperties.TrainingDoesNotChangeTransform | src/preprocessing/target_encoder.py:77-91 | transforming with a trained encoder gives the same result as transforming with the untrained one, for any training data |
| TargetEncoderProperties.OnlyTargetColumnMatters | src/preprocessing/target_encoder.py:46-47 | two frames that agree on whether they contain the target column, and on its values, transform to the same result |

## Left out

- Stringification (`str(c)` on the allowed values, `astype(str)` and `apply(str)` on the target column): labels and allowed values are taken as strings already. How Python renders numbers or booleans as text is not modelled.
- `save_target_encoder` / `load_target_encoder`: file I/O through joblib.
- The scikit-learn base classes and the inherited `fit_transform`. The model's `Fit` followed by `Transform` gives the same result.
- The `__main__` demo block: script glue. Its only behaviour is that a frame without the target column gives None, and `Transform` states that.
- The error message text: the model's errors carry the observed count, the observed labels and the allowed values instead of a formatted string.
- Data frames with duplicate column names, and a NumPy array passed where a frame is expected (it has no `.columns` and fails with an attribute error): a frame is modelled as a map from column name to one column.
- The dtype of the encoded series (integers, or floats once NaN appears): cells are `Code(bit)` or `NaN`.
- The schema class itself: only its `target` and `allowed_target_values` attributes are modelled, as the `Schema` datatype.
- tests/test_predict.py: it exercises prediction and training code that is not part of this model (argmax over class probabilities, id columns, model training and file I/O).
