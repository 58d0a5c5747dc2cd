/**
 The perimeter effect: in the separate (width and height) input mode, the
 total length field follows the rectangle's perimeter. A field is `None` when
 its text is empty and `Some(n)` with n the field's parsed value otherwise
 (`parseInt(text) || 0`, so unparsable text reads as 0).
 */
module Perimeter {
  import opened Wrappers

  datatype InputMode = TotalInput | SeparateInput

  /** The total length field after the effect has run. */
  function PerimeterEffect(mode: InputMode, width: Option<int>, height: Option<int>, total: Option<int>)
    : (r: Option<int>)
    ensures r != total ==> mode == SeparateInput && width.Some? && height.Some?
    ensures r != total && r.Some? ==> r.value >= 4 && r.value % 2 == 0
  {
    if mode == SeparateInput && width.Some? && height.Some? then
      var w, h := width.value, height.value;
      if w > 0 && h > 0 then Some((w + h) * 2) else None
    else total
  }

  /** With both sides positive the total is the rectangle's perimeter: it
      exceeds twice the longer side and gives the height back from the width. */
  lemma PerimeterOfRectangle(w: int, h: int, total: Option<int>)
    requires w > 0 && h > 0
    ensures PerimeterEffect(SeparateInput, Some(w), Some(h), total).Some?
    ensures var p := PerimeterEffect(SeparateInput, Some(w), Some(h), total).value;
      && p == 2 * w + 2 * h
      && p / 2 - w == h
      && p > 2 * w && p > 2 * h
  {
  }

  /** In separate mode with both fields filled, the total is cleared exactly
      when a side is not positive, whatever it held before. */
  lemma ClearedIffSideNotPositive(w: int, h: int, total: Option<int>)
    ensures PerimeterEffect(SeparateInput, Some(w), Some(h), total).None? <==> w <= 0 || h <= 0
  {
  }

  /** Outside separate mode, or with a field empty, the total is left alone. */
  lemma TotalUntouched(mode: InputMode, width: Option<int>, height: Option<int>, total: Option<int>)
    requires mode == TotalInput || width.None? || height.None?
    ensures PerimeterEffect(mode, width, height, total) == total
  {
  }

  /** Running the effect again on its own result changes nothing, and width
      and height play symmetric roles. */
  lemma EffectStable(mode: InputMode, width: Option<int>, height: Option<int>, total: Option<int>)
    ensures PerimeterEffect(mode, width, height, PerimeterEffect(mode, width, height, total))
         == PerimeterEffect(mode, width, height, total)
    ensures mode == SeparateInput && width.Some? && height.Some? ==>
      PerimeterEffect(mode, width, height, total) == PerimeterEffect(mode, height, width, total)
  {
  }

  /** A 1200 × 800 rectangle gives 4000 mm; a zero side clears the total. */
  lemma PerimeterExamples()
    ensures PerimeterEffect(SeparateInput, Some(1200), Some(800), None) == Some(4000)
    ensures PerimeterEffect(SeparateInput, Some(0), Some(800), Some(4000)) == None
    ensures PerimeterEffect(SeparateInput, None, Some(800), Some(4000)) == Some(4000)
  {
  }
}
