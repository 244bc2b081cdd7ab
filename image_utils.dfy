/**
 * The options of an embedded image (src/utils/imageUtils.ts): the base64 payload taken out of
 * a data URL, the display size, and an SVG image with a PNG fallback of the same size.
 */
module ImageUtils {
  import opened Wrappers
  import opened Strings
  import opened Docx

  /** `base64Data.split(',')[1]`: the second comma-separated field, absent without a comma. */
  function SecondField(s: string): (r: Option<string>)
    ensures r.Some? <==> ',' in s
  {
    var parts := Split(s, ',');
    assert parts == [s] <== ',' !in s;
    if |parts| >= 2 then Some(parts[1]) else None
  }

  /** `createImageRunOptions(base64Data, width, height)`. */
  function CreateImageRunOptions(base64Data: string, width: int, height: int): (o: ImageRunOptions)
    ensures o.data == SecondField(base64Data)
    ensures o.transformation.width == width && o.transformation.height == height
    ensures o.fallback.width == o.transformation.width && o.fallback.height == o.transformation.height
    ensures o.kind == Svg && o.fallback.kind == Png
  {
    ImageRunOptions(
      data := SecondField(base64Data),
      transformation := Transformation(width, height),
      kind := Svg,
      fallback := Fallback(Png, width, height))
  }

  /**
   * The field is what lies between the first comma and the next comma (or the end): after
   * the first comma of the input come the field and then either nothing or another comma.
   */
  lemma SecondFieldBetweenCommas(s: string) returns (k: nat, rest: string)
    requires ',' in s
    ensures k < |s| && s[k] == ',' && ',' !in s[..k]
    ensures ',' !in SecondField(s).value
    ensures s[k + 1..] == SecondField(s).value + rest
    ensures rest == [] || rest[0] == ','
  {
    k := IndexOf(s, ',').value;
    FieldAfterFirstComma(s, k);
    rest := FirstFieldThenRest(s[k + 1..]);
  }

  lemma FieldAfterFirstComma(s: string, k: nat)
    requires k < |s| && s[k] == ',' && ',' !in s[..k]
    ensures SecondField(s) == Some(Split(s[k + 1..], ',')[0])
  {
    assert s == s[..k] + [','] + s[k + 1..];
    SplitCons(s[..k], ',', s[k + 1..]);
  }

  lemma FirstFieldThenRest(t: string) returns (rest: string)
    ensures t == Split(t, ',')[0] + rest
    ensures rest == [] || rest[0] == ','
  {
    var r := IndexOf(t, ',');
    if r.Some? {
      rest := t[r.value..];
      assert t == t[..r.value] + rest;
    } else {
      rest := [];
    }
  }

  /** For a data URL, whose header holds no comma and whose base64 payload holds none either, the field is the payload. */
  lemma PayloadOfDataUrl(header: string, payload: string)
    requires ',' !in header && ',' !in payload
    ensures SecondField(header + "," + payload) == Some(payload)
  {
    var s := header + "," + payload;
    assert s[|header|] == ',';
    assert s[..|header|] == header;
    assert IndexOf(s, ',') == Some(|header|);
    assert s[|header| + 1..] == payload;
    assert Split(payload, ',') == [payload];
  }
}
