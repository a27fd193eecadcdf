/**
 Properties of the binary target encoder that relate several calls or hold
 only for particular encoders: when validation succeeds, what the codes
 mean, and which parts of the input a transform ignores.
 */
module TargetEncoderProperties {
  import opened LabelSets
  import opened TargetEncoding

  /** The labels `Distinct` finds in a two-entry allowed list are its two entries. */
  lemma AllowedPair(enc: TargetEncoder)
    requires |enc.classes| == 2
    ensures Distinct(enc.classes) == {enc.classes[0], enc.classes[1]}
  {
  }

  /** With two distinct allowed values, a present target column is encoded
      exactly when the labels it holds are the allowed pair, no more and no fewer. */
  lemma SuccessIffObservedIsAllowed(enc: TargetEncoder, data: DataFrame)
    requires |enc.classes| == 2
    requires enc.classes[0] != enc.classes[1]
    requires enc.targetField in data
    ensures Transform(enc, data).Encoded? <==>
              Distinct(data[enc.targetField]) == {enc.classes[0], enc.classes[1]}
  {
    var observed := Distinct(data[enc.targetField]);
    AllowedPair(enc);
    if Transform(enc, data).Encoded? {
      PairSubset(observed, enc.classes[0], enc.classes[1]);
    }
    if observed == {enc.classes[0], enc.classes[1]} {
      assert |observed| == 2;
    }
  }

  /** Two equal allowed values leave one allowed label, so no column can
      show the two labels validation asks for. */
  lemma DuplicatePairNeverEncodes(enc: TargetEncoder, data: DataFrame)
    requires |enc.classes| == 2
    requires enc.classes[0] == enc.classes[1]
    ensures !Transform(enc, data).Encoded?
  {
    if enc.targetField in data {
      var observed := Distinct(data[enc.targetField]);
      AllowedPair(enc);
      assert Distinct(enc.classes) == {enc.classes[0]};
      if observed <= Distinct(enc.classes) {
        SubsetSize(observed, {enc.classes[0]});
      }
    }
  }

  /** With two allowed values, every cell of a successful transform is the
      bit 0 or 1, the first allowed value is coded 0 and the second 1, and
      indexing the allowed values by the bit gives back the input label. */
  lemma EncodedBitsRecoverLabels(enc: TargetEncoder, data: DataFrame)
    requires |enc.classes| == 2
    requires Transform(enc, data).Encoded?
    ensures enc.classes[0] != enc.classes[1]
    ensures forall i :: 0 <= i < |data[enc.targetField]| ==>
              data[enc.targetField][i] == enc.classes[0] ==> Transform(enc, data).cells[i] == Code(0)
    ensures forall i :: 0 <= i < |data[enc.targetField]| ==>
              data[enc.targetField][i] == enc.classes[1] ==> Transform(enc, data).cells[i] == Code(1)
    ensures forall i :: 0 <= i < |data[enc.targetField]| ==>
              && Transform(enc, data).cells[i].Code?
              && 0 <= Transform(enc, data).cells[i].bit <= 1
              && enc.classes[Transform(enc, data).cells[i].bit] == data[enc.targetField][i]
  {
    if enc.classes[0] == enc.classes[1] {
      DuplicatePairNeverEncodes(enc, data);
    }
    AllowedPair(enc);
    var targets := data[enc.targetField];
    forall i | 0 <= i < |targets|
      ensures targets[i] == enc.classes[0] || targets[i] == enc.classes[1]
    {
      assert targets[i] in Distinct(targets);
    }
  }

  /** A third allowed value passes validation but has no entry in the
      encoding table, so its cells come out as NaN. */
  lemma ThirdAllowedValueHasNoCode()
    ensures Transform(TargetEncoder("target", ["A", "B", "C"]), map["target" := ["A", "C", "A"]])
            == Encoded([Code(0), NaN, Code(0)])
  {
    var enc := TargetEncoder("target", ["A", "B", "C"]);
    var data := map["target" := ["A", "C", "A"]];
    assert Distinct(data["target"]) == {"A", "C"};
    assert Distinct(enc.classes) == {"A", "B", "C"};
    var r := Transform(enc, data);
    assert |r.cells| == 3;
    assert r.cells[0] == Code(0) && r.cells[1] == NaN && r.cells[2] == Code(0);
  }

  /** Training leaves every later transform as it would have been. */
  lemma TrainingDoesNotChangeTransform(enc: TargetEncoder, trainData: DataFrame, data: DataFrame)
    ensures Transform(TrainTargetEncoder(enc, trainData), data) == Transform(enc, data)
  {
  }

  /** A transform reads the target column and nothing else of the frame. */
  lemma OnlyTargetColumnMatters(enc: TargetEncoder, data: DataFrame, other: DataFrame)
    requires enc.targetField in data <==> enc.targetField in other
    requires enc.targetField in data ==> data[enc.targetField] == other[enc.targetField]
    ensures Transform(enc, data) == Transform(enc, other)
  {
  }
}
