/** The chequeparser box that also carries recognised text: a BBox plus a text
    and its confidence, which start out as "" and 0 and are overwritten in
    place. Operations that build a new box copy the text onto it. */
module ChequeTextBBox {
  import opened Wrappers
  import opened Numeric
  import opened PyList
  import ChequeBBox

  datatype TextBBox = TextBBox(box: ChequeBBox.BBox, text: string, textConf: real)

  /** The TextBBox constructor (the BBox one): no text yet. */
  function Make(x1: real, y1: real, x2: real, y2: real, normalized: bool := false,
                conf: real := 1.0, className: string := "0"): (t: TextBBox)
    ensures t.box == ChequeBBox.Make(x1, y1, x2, y2, normalized, conf, className)
    ensures t.text == "" && t.textConf == 0.0
  {
    TextBBox(ChequeBBox.Make(x1, y1, x2, y2, normalized, conf, className), "", 0.0)
  }

  /** What a recognition model reports for one box. */
  datatype RecognitionResults = RecognitionResults(text: string, conf: real)

  /** A TextBBox object as Python code holds it: a reference whose text fields
      can be overwritten in place. */
  class TextBBoxObject {
    var value: TextBBox

    constructor (t: TextBBox)
      ensures value == t
    {
      value := t;
    }

    /** set_text_and_confidence: overwrite the text and its confidence, nothing else. */
    method SetTextAndConfidence(text: string, textConf: real)
      modifies this
      ensures value.box == old(value.box)
      ensures value.text == text && value.textConf == textConf
    {
      value := value.(text := text, textConf := textConf);
    }

    /** from_recognition_results: take the text and confidence of a recognition. */
    method FromRecognitionResults(recog: RecognitionResults)
      modifies this
      ensures value == old(value).(text := recog.text, textConf := recog.conf)
    {
      value := value.(text := recog.text, textConf := recog.conf);
    }
  }

  /** TextBBox.normalize: the BBox result with this box's text copied onto it. */
  function Normalize(t: TextBBox, width: real, height: real): (r: TextBBox)
    requires !t.box.normalized ==> width != 0.0 && height != 0.0
    ensures r.box == ChequeBBox.Normalize(t.box, width, height)
    ensures r.text == t.text && r.textConf == t.textConf
  {
    TextBBox(ChequeBBox.Normalize(t.box, width, height), t.text, t.textConf)
  }

  /** TextBBox.denormalize: the BBox result with this box's text copied onto it. */
  function Denormalize(t: TextBBox, width: real, height: real): (r: TextBBox)
    ensures r.box == ChequeBBox.Denormalize(t.box, width, height)
    ensures r.text == t.text && r.textConf == t.textConf
  {
    TextBBox(ChequeBBox.Denormalize(t.box, width, height), t.text, t.textConf)
  }

  /** Normalizing then denormalizing an absolute text box gives it back, text included. */
  lemma {:induction false} DenormalizeNormalize(t: TextBBox, width: real, height: real)
    requires t.box.Valid() && !t.box.normalized && width != 0.0 && height != 0.0
    ensures Denormalize(Normalize(t, width, height), width, height) == t
  {
    ChequeBBox.DenormalizeNormalize(t.box, width, height);
  }

  /** TextBBox.apply_text_op: a new box with the same geometry, confidence,
      label and text confidence, whose text is op applied to the (optionally
      lower-cased) text. */
  function ApplyTextOp(t: TextBBox, op: string -> string, lowercase: bool := false): (r: TextBBox)
    ensures r.box.Valid()
    ensures t.box.Valid() ==> r.box == t.box
    ensures r.text == op(if lowercase then Lower(t.text) else t.text) && r.textConf == t.textConf
  {
    var b := t.box;
    RebuildValid(b);
    Make(b.x1, b.y1, b.x2, b.y2, b.normalized, b.conf, b.className)
      .(text := op(if lowercase then Lower(t.text) else t.text), textConf := t.textConf)
  }

  lemma RebuildValid(b: ChequeBBox.BBox)
    ensures b.Valid() ==> ChequeBBox.Make(b.x1, b.y1, b.x2, b.y2, b.normalized, b.conf, b.className) == b
  {
    if b.Valid() {
      ChequeBBox.MakeOfValid(b);
    }
  }

  /** Two text operations in a row act as their composition. */
  lemma {:induction false} ApplyTextOpCompose(t: TextBBox, f: string -> string, g: string -> string)
    requires t.box.Valid()
    ensures ApplyTextOp(ApplyTextOp(t, f), g) == ApplyTextOp(t, s => g(f(s)))
  {
  }

  /** The keys of TextBBox.as_dict. */
  const DictKeys: set<string> := ChequeBBox.DictKeys + {"text", "text_conf"}

  /** TextBBox.as_dict: the BBox dict with the text and its confidence added. */
  function AsDict(t: TextBBox): (d: map<string, PyValue>)
    ensures d.Keys == DictKeys
    ensures forall k :: k in ChequeBBox.DictKeys ==> d[k] == ChequeBBox.AsDict(t.box)[k]
    ensures d["text"] == Str(t.text) && d["text_conf"] == Num(t.textConf)
  {
    ChequeBBox.AsDict(t.box)["text" := Str(t.text)]["text_conf" := Num(t.textConf)]
  }

  /** The right operand of `+`: another text box, a plain BBox, or anything else. */
  datatype Operand = TextOperand(t: TextBBox) | BoxOperand(b: ChequeBBox.BBox) | Other

  /** TextBBox.__add__: with another text box in the same space, the union of
      the two boxes whose text is both texts joined by a space and whose text
      confidence is the larger one; one in the other space fails BBox.__add__'s
      assertion. Any other operand has no text: reading it is an
      AttributeError. */
  function Add(a: TextBBox, other: Operand): (r: Result<TextBBox>)
    ensures r.Ok? <==> other.TextOperand? && other.t.box.normalized == a.box.normalized
    ensures other.TextOperand? && r.Err? ==> r.error == AssertionError
    ensures !other.TextOperand? ==> r == Err(AttributeError)
    ensures r.Ok? ==> r.value.box == ChequeBBox.Add(a.box, Some(other.t.box))
    ensures r.Ok? ==> r.value.text == a.text + " " + other.t.text
    ensures r.Ok? ==> r.value.textConf == MaxR(a.textConf, other.t.textConf)
  {
    match other
    case TextOperand(o) =>
      if o.box.normalized != a.box.normalized then Err(AssertionError)
      else Ok(TextBBox(ChequeBBox.Add(a.box, Some(o.box)), a.text + " " + o.text, MaxR(a.textConf, o.textConf)))
    case _ => Err(AttributeError)
  }

  /** `x + t` for an x that is no box (`sum` starts from 0): TextBBox inherits
      BBox's __radd__, which returns the text box itself. */
  function RAdd(a: TextBBox): (r: TextBBox)
    ensures r == a
  {
    a
  }

  /** Python's `sum(boxes)` over a non-empty list of text boxes: the union of
      all of them, whose text is all texts joined by single spaces; it fails
      the assertion of BBox.__add__ unless every box is in the first one's space. */
  function SumBoxes(ts: seq<TextBBox>): (r: Result<TextBBox>)
    requires |ts| > 0
    ensures r.Ok? <==> forall i :: 0 <= i < |ts| ==> ts[i].box.normalized == ts[0].box.normalized
    ensures r.Err? ==> r.error == AssertionError
    ensures r.Ok? ==> r.value.box.normalized == ts[0].box.normalized
  {
    if |ts| == 1 then Ok(RAdd(ts[0]))
    else
      var init, last := ts[..|ts| - 1], ts[|ts| - 1];
      match SumBoxes(init)
      case Err(e) =>
        assert init[0] == ts[0];
        Err(e)
      case Ok(s) =>
        assert init[0] == ts[0];
        assert forall i :: 0 <= i < |init| ==> init[i] == ts[i];
        Add(s, TextOperand(last))
  }

  /** The texts of ts joined by single spaces. */
  function JoinTexts(ts: seq<TextBBox>): string
    requires |ts| > 0
  {
    if |ts| == 1 then ts[0].text else JoinTexts(ts[..|ts| - 1]) + " " + ts[|ts| - 1].text
  }

  /** Summing text boxes joins their texts in order and contains every box. */
  lemma {:induction false} SumBoxesSpec(ts: seq<TextBBox>)
    requires |ts| > 0 && forall i :: 0 <= i < |ts| ==> ts[i].box.normalized == ts[0].box.normalized
    requires forall i :: 0 <= i < |ts| ==> ts[i].box.Valid()
    ensures SumBoxes(ts).Ok?
    ensures var r := SumBoxes(ts).value;
      && r.text == JoinTexts(ts) && r.box.Valid()
      && forall i :: 0 <= i < |ts| ==> ChequeBBox.Contains(r.box, ts[i].box)
  {
    if |ts| > 1 {
      var init := ts[..|ts| - 1];
      SumBoxesSpec(init);
      var s := SumBoxes(init).value;
      var last := ts[|ts| - 1];
      ChequeBBox.AddIsEnvelope(s.box, last.box);
      forall i | 0 <= i < |ts| ensures ChequeBBox.Contains(SumBoxes(ts).value.box, ts[i].box) {
        if i < |ts| - 1 {
          assert ts[i] == init[i];
        }
      }
    }
  }
}
