/**
 The binary target encoder: an encoder names the target column and lists the
 allowed class labels; transforming a frame validates the target column and
 maps each label to 0 or 1, the label at position 1 being the positive class.
 */
module TargetEncoding {
  import opened LabelSets

  /** The allowed labels. The constructor reads positions 0 and 1, so a list
      with fewer than two entries never becomes an encoder. */
  type ClassList = s: seq<string> | |s| >= 2 witness ["0", "1"]

  datatype TargetEncoder = TargetEncoder(targetField: string, classes: ClassList)

  /** What building an encoder gives: the encoder, or the index error raised
      when the allowed-value list has fewer than two entries. */
  datatype Construction = Built(encoder: TargetEncoder) | IndexError(length: nat)

  /** One output cell. A label missing from the encoding table maps to NaN. */
  datatype Cell = Code(bit: int) | NaN

  /** The two value errors raised by validation; each carries the observed labels. */
  datatype EncodeError =
    | WrongClassCount(found: nat, observed: set<string>)
    | ClassMismatch(observed: set<string>, allowed: seq<string>)

  /** The three outcomes of a transform: no target column (None), a
      validation error, or the encoded column. */
  datatype Transformed = Absent | Failed(error: EncodeError) | Encoded(cells: seq<Cell>)

  /** The schema attributes the encoder is built from. */
  datatype Schema = Schema(target: string, allowedTargetValues: seq<string>)

  /** Builds an encoder; fails as indexing does when there are fewer than two allowed values. */
  function NewEncoder(targetField: string, allowedValues: seq<string>): (r: Construction)
    ensures r.Built? <==> |allowedValues| >= 2
    ensures r.Built? ==> r.encoder.targetField == targetField && r.encoder.classes == allowedValues
    ensures r.IndexError? ==> r.length == |allowedValues| < 2
  {
    if |allowedValues| >= 2 then Built(TargetEncoder(targetField, allowedValues))
    else IndexError(|allowedValues|)
  }

  /** The encoding table: the first allowed label to 0, the second to 1. A
      repeated key keeps its last value, as a Python dict literal does. */
  function ClassEncoding(classes: ClassList): (table: map<string, int>)
    ensures table.Keys == {classes[0], classes[1]}
    ensures table[classes[1]] == 1
    ensures classes[0] != classes[1] ==> table[classes[0]] == 0
  {
    map[classes[0] := 0][classes[1] := 1]
  }

  /** The code the encoder's documentation promises for a label: the positive
      class (position 1) is 1, the class at position 0 is 0, anything else has
      no code. */
  ghost function DocumentedCode(classes: ClassList, lbl: string): Cell
  {
    if lbl == classes[1] then Code(1)
    else if lbl == classes[0] then Code(0)
    else NaN
  }

  /** Looks a label up in a table, as `Series.map(dict)` does for one element. */
  function Lookup(table: map<string, int>, lbl: string): Cell
  {
    if lbl in table then Code(table[lbl]) else NaN
  }

  /** Maps every label of a column through the table, position by position. */
  function EncodeLabels(table: map<string, int>, labels: seq<string>): (cells: seq<Cell>)
    ensures |cells| == |labels|
    ensures forall i :: 0 <= i < |labels| ==> cells[i] == Lookup(table, labels[i])
  {
    if labels == [] then []
    else [Lookup(table, labels[0])] + EncodeLabels(table, labels[1..])
  }

  /** Fitting learns nothing: the encoder comes back as it was. */
  function Fit(enc: TargetEncoder, data: DataFrame): (r: TargetEncoder)
    ensures r.targetField == enc.targetField
    ensures r.classes == enc.classes
  {
    enc
  }

  /** Validates and encodes the target column of `data`. */
  function Transform(enc: TargetEncoder, data: DataFrame): (r: Transformed)
    ensures r.Absent? <==> enc.targetField !in data
    ensures enc.targetField in data && |Distinct(data[enc.targetField])| != 2 ==>
              r == Failed(WrongClassCount(|Distinct(data[enc.targetField])|, Distinct(data[enc.targetField])))
    ensures enc.targetField in data && |Distinct(data[enc.targetField])| == 2
            && !(Distinct(data[enc.targetField]) <= Distinct(enc.classes)) ==>
              r == Failed(ClassMismatch(Distinct(data[enc.targetField]), enc.classes))
    ensures r.Encoded? <==>
              enc.targetField in data && |Distinct(data[enc.targetField])| == 2
              && Distinct(data[enc.targetField]) <= Distinct(enc.classes)
    ensures r.Encoded? ==>
              && |r.cells| == |data[enc.targetField]|
              && forall i :: 0 <= i < |r.cells| ==>
                   r.cells[i] == DocumentedCode(enc.classes, data[enc.targetField][i])
  {
    if enc.targetField in data then
      var targets := data[enc.targetField];
      var observed := Distinct(targets);
      if |observed| != 2 then Failed(WrongClassCount(|observed|, observed))
      else
        PairIntersection(observed, Distinct(enc.classes));
        if |observed * Distinct(enc.classes)| != 2 then Failed(ClassMismatch(observed, enc.classes))
        else Encoded(EncodeLabels(ClassEncoding(enc.classes), targets))
    else
      Absent
  }

  /** Builds the encoder from a schema's target name and allowed target values. */
  function GetTargetEncoder(schema: Schema): (r: Construction)
    ensures r.Built? <==> |schema.allowedTargetValues| >= 2
    ensures r.Built? ==>
              r.encoder.targetField == schema.target
              && r.encoder.classes == schema.allowedTargetValues
  {
    NewEncoder(schema.target, schema.allowedTargetValues)
  }

  /** Training the encoder is fitting it, which changes nothing. */
  function TrainTargetEncoder(enc: TargetEncoder, trainData: DataFrame): (r: TargetEncoder)
    ensures r.targetField == enc.targetField
    ensures r.classes == enc.classes
  {
    Fit(enc, trainData)
  }

  /** Transforming the targets is the encoder's own transform. */
  function TransformTargets(enc: TargetEncoder, data: DataFrame): (r: Transformed)
    ensures r == Transform(enc, data)
  {
    Transform(enc, data)
  }
}
