/**
  `set_text_width` of src/graphics.rs: fit a label into a column of fixed width by padding it
  with spaces or cutting it and ending it with dots. Every character is taken to be one column
  wide (the display-width table of the source's Unicode library is not modelled).
*/
module Graphics {

  /** `n` copies of `c` (`c.repeat(n)`). */
  function Repeat(c: char, n: nat): (s: string)
    ensures |s| == n && forall i :: 0 <= i < n ==> s[i] == c
  {
    seq(n, _ => c)
  }

  /**
    A label that is too wide is cut by `width - 3` (a usize subtraction), so such a width must
    leave room for the three dots.
  */
  predicate CanFit(text: string, width: nat) {
    |text| > width ==> width >= 3
  }

  /**
    The column text for `text`: `text` padded with spaces when it fits, otherwise its first
    `width - 3` characters followed by dots up to the width.
  */
  function Fit(text: string, width: nat): string
    requires CanFit(text, width)
  {
    if |text| <= width then text + Repeat(' ', width - |text|)
    else text[..width - 3] + Repeat('.', 3)
  }

  /**
    `set_text_width` (src/graphics.rs:26-44). When the label is too wide, characters are
    pushed while the text built so far is narrower than `width - 3`, and the rest of the width
    is filled with dots.
  */
  method SetTextWidth(text: string, width: nat) returns (r: string)
    requires CanFit(text, width)
    ensures r == Fit(text, width)
  {
    var textSize := |text|;
    if textSize <= width {
      r := text + Repeat(' ', width - |text|);
    } else {
      var newText := "";
      var i := 0;
      while i < |text|
        invariant 0 <= i <= |text|
        invariant newText == text[..i]
        invariant i <= width - 3
        invariant i < |text| ==> |newText| < width - 3 || i == width - 3
      {
        if |newText| < width - 3 {
          newText := newText + [text[i]];
        } else {
          break;
        }
        i := i + 1;
      }
      assert newText == text[..width - 3];
      r := newText + Repeat('.', width - |newText|);
    }
  }

  /** The result is always exactly `width` columns wide. */
  lemma FitWidth(text: string, width: nat)
    requires CanFit(text, width)
    ensures |Fit(text, width)| == width
  {
  }

  /**
    The result starts with as much of `text` as fits: all of it when it fits, else the first
    `width - 3` characters, which is the shortest prefix that reaches `width - 3` columns; the
    rest is padding.
  */
  lemma FitKeepsPrefix(text: string, width: nat)
    requires CanFit(text, width)
    ensures var r := Fit(text, width);
      && (|text| <= width ==> r[..|text|] == text
                              && forall i :: |text| <= i < width ==> r[i] == ' ')
      && (|text| > width ==> r[..width - 3] == text[..width - 3]
                             && forall i :: width - 3 <= i < width ==> r[i] == '.')
  {
  }

  /** Fitting a fitted label again changes nothing. */
  lemma FitIdempotent(text: string, width: nat)
    requires CanFit(text, width)
    ensures CanFit(Fit(text, width), width)
    ensures Fit(Fit(text, width), width) == Fit(text, width)
  {
    FitWidth(text, width);
  }
}
