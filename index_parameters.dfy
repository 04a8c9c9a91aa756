/**
 * The layout parameters of indexify: the user's sizes for the index pages
 * and thumbnails, and finalize_parameters, which derives from them how
 * many thumbnails fit across and down a page and how wide the page
 * actually is.  The program's global variables are the fields of one
 * object.
 */
module IndexParametersModel {

  /** C integer division: the quotient truncated toward zero. */
  function CDiv(a: int, b: int): int
    requires b != 0
  {
    if a >= 0 then (if b > 0 then a / b else -(a / -b))
    else (if b > 0 then -((-a) / b) else (-a) / (-b))
  }

  /** The truncated quotient never overshoots: its multiple of b lies between 0 and a, within one b of a. */
  lemma CDivBounds(a: int, b: int)
    requires b > 0
    ensures a >= 0 ==> CDiv(a, b) * b <= a < (CDiv(a, b) + 1) * b
    ensures a < 0 ==> (CDiv(a, b) - 1) * b < a <= CDiv(a, b) * b <= 0
  {
    if a >= 0 {
      assert a == (a / b) * b + a % b;
    } else {
      var q := (-a) / b;
      assert -a == q * b + (-a) % b;
      assert CDiv(a, b) * b == -(q * b);
      assert (CDiv(a, b) - 1) * b == -(q * b) - b;
    }
  }

  /** How many thumbnails of the given size, each followed by the given space, fit after a leading space. */
  function ThumbCount(extent: int, size: int, space: int): int
    requires size + space != 0
  {
    CDiv(extent - space, size + space)
  }

  /** The width the thumbnails across actually take: the leading space and each thumbnail with its space. */
  function UsedExtent(count: int, size: int, space: int): int
  {
    space + count * (size + space)
  }

  /**
   * When the page is at least as wide as the leading space, the count is
   * the largest number of thumbnails that fit: they fit, and one more would
   * not.
   */
  lemma ThumbCountIsLargest(extent: int, size: int, space: int)
    requires size + space > 0 && extent >= space
    ensures ThumbCount(extent, size, space) >= 0
    ensures UsedExtent(ThumbCount(extent, size, space), size, space) <= extent
    ensures UsedExtent(ThumbCount(extent, size, space) + 1, size, space) > extent
  {
    CDivBounds(extent - space, size + space);
  }

  /**
   * A page narrower than the leading space by less than one thumbnail
   * gets no thumbnails (the quotient truncates toward zero), and the
   * width used is then the space, wider than the page.
   */
  lemma NarrowPageHasNoThumbs(extent: int, size: int, space: int)
    requires size + space > 0 && space - (size + space) < extent < space
    ensures ThumbCount(extent, size, space) == 0
    ensures UsedExtent(ThumbCount(extent, size, space), size, space) > extent
  {
  }

  class IndexParameters {
    var maxIndexWidth: int
    var maxIndexHeight: int
    var thumbWidth: int
    var thumbHeight: int
    var thumbCaptionHeight: int
    var thumbXSpace: int
    var thumbYSpace: int
    var captionFontSize: int
    var reducedWidth: int
    var reducedHeight: int
    var prevIcon: string
    var nextIcon: string
    var upIcon: string
    var forceRegenerate: bool
    var formatRose: bool

    var thumbCountX: int
    var thumbCountY: int
    var maxThumbs: int
    var actualIndexWidth: int

    /** The defaults of the user parameters; the computed ones start at zero and the icon names empty. */
    constructor ()
      ensures maxIndexWidth == 700 && maxIndexHeight == 700
      ensures thumbWidth == 100 && thumbHeight == 100 && thumbCaptionHeight == 16
      ensures thumbXSpace == 16 && thumbYSpace == 16 && captionFontSize == 14
      ensures reducedWidth == 800 && reducedHeight == 700
      ensures prevIcon == [] && nextIcon == [] && upIcon == [] && !forceRegenerate && !formatRose
      ensures thumbCountX == 0 && thumbCountY == 0 && maxThumbs == 0 && actualIndexWidth == 0
    {
      maxIndexWidth, maxIndexHeight := 700, 700;
      thumbWidth, thumbHeight, thumbCaptionHeight := 100, 100, 16;
      thumbXSpace, thumbYSpace := 16, 16;
      captionFontSize := 14;
      reducedWidth, reducedHeight := 800, 700;
      prevIcon, nextIcon, upIcon := [], [], [];
      forceRegenerate, formatRose := false, false;
      thumbCountX, thumbCountY, maxThumbs, actualIndexWidth := 0, 0, 0, 0;
    }

    /**
     * finalize_parameters: the thumbnails across (each with its x space)
     * and down (each with its caption and y space), their product, and the
     * width the thumbnails across take; the user parameters stay as they
     * are.  The divisors must not be zero.
     */
    method FinalizeParameters()
      requires thumbWidth + thumbXSpace != 0 && thumbHeight + thumbCaptionHeight + thumbYSpace != 0
      modifies this`thumbCountX, this`thumbCountY, this`maxThumbs, this`actualIndexWidth
      ensures thumbCountX == ThumbCount(maxIndexWidth, thumbWidth, thumbXSpace)
      ensures thumbCountY == ThumbCount(maxIndexHeight, thumbHeight + thumbCaptionHeight, thumbYSpace)
      ensures maxThumbs == thumbCountX * thumbCountY
      ensures actualIndexWidth == UsedExtent(thumbCountX, thumbWidth, thumbXSpace)
      ensures thumbXSpace <= maxIndexWidth && thumbWidth + thumbXSpace > 0 ==>
        0 <= thumbCountX && actualIndexWidth <= maxIndexWidth < actualIndexWidth + thumbWidth + thumbXSpace
    {
      thumbCountX := CDiv(maxIndexWidth - thumbXSpace, thumbWidth + thumbXSpace);
      thumbCountY := CDiv(maxIndexHeight - thumbYSpace, thumbHeight + thumbCaptionHeight + thumbYSpace);
      maxThumbs := thumbCountX * thumbCountY;
      actualIndexWidth := thumbXSpace + thumbCountX * (thumbWidth + thumbXSpace);
      if thumbXSpace <= maxIndexWidth && thumbWidth + thumbXSpace > 0 {
        ThumbCountIsLargest(maxIndexWidth, thumbWidth, thumbXSpace);
      }
    }
  }
}
