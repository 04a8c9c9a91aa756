/**
 * TextureStage: how one texture is applied.  The combine modes take a
 * number of (source, operand) pairs that depends on the mode, and only some
 * operands make sense for the alpha channel.
 */
module TextureStageModel {

  datatype Mode = M_modulate | M_decal | M_blend | M_replace | M_add | M_combine

  datatype CombineMode =
    | CM_undefined | CM_replace | CM_modulate | CM_add | CM_add_signed
    | CM_interpolate | CM_subtract | CM_dot3_rgb | CM_dot3_rgba

  /** The sources other than "undefined" are distinguished by code only. */
  datatype CombineSource = CS_undefined | CS_other(code: nat)

  datatype CombineOperand =
    | CO_undefined | CO_src_color | CO_one_minus_src_color | CO_src_alpha | CO_one_minus_src_alpha

  datatype Color = Color(r: real, g: real, b: real, a: real)

  /** The texture-coordinate name a stage uses: the shared default one, or another. */
  datatype TexCoordRef = DefaultTexCoord | NamedTexCoord(name: string)

  /** The modes that combine two inputs. */
  predicate Binary(cm: CombineMode)
  {
    cm in {CM_modulate, CM_add, CM_add_signed, CM_subtract, CM_dot3_rgb, CM_dot3_rgba}
  }

  /** get_expected_num_combine_operands: how many (source, operand) pairs a combine mode reads. */
  function ExpectedNumCombineOperands(cm: CombineMode): (r: nat)
    ensures r <= 3
    ensures r == 0 <==> cm == CM_undefined
    ensures r == 1 <==> cm == CM_replace
    ensures r == 2 <==> Binary(cm)
    ensures r == 3 <==> cm == CM_interpolate
  {
    match cm
    case CM_undefined => 0
    case CM_replace => 1
    case CM_interpolate => 3
    case _ => 2
  }

  /** operand_valid_for_rgb: every defined operand may feed an RGB combine. */
  function OperandValidForRgb(co: CombineOperand): (r: bool)
    ensures r <==> co != CO_undefined
  {
    match co
    case CO_undefined => false
    case _ => true
  }

  /** operand_valid_for_alpha: only the alpha operands may feed an alpha combine. */
  function OperandValidForAlpha(co: CombineOperand): (r: bool)
    ensures r <==> co == CO_src_alpha || co == CO_one_minus_src_alpha
  {
    match co
    case CO_src_alpha => true
    case CO_one_minus_src_alpha => true
    case _ => false
  }

  /** Every operand valid for alpha is valid for RGB, and the undefined operand is valid for neither. */
  lemma AlphaOperandsAreRgbOperands(co: CombineOperand)
    ensures OperandValidForAlpha(co) ==> OperandValidForRgb(co)
    ensures co == CO_undefined ==> !OperandValidForRgb(co) && !OperandValidForAlpha(co)
    ensures OperandValidForRgb(co) && !OperandValidForAlpha(co) <==> co == CO_src_color || co == CO_one_minus_src_color
  {
  }

  class TextureStage {
    var name: string
    var sort: int
    var priority: int
    var texcoordName: TexCoordRef
    var mode: Mode
    var color: Color
    var combineRgbMode: CombineMode
    var numCombineRgbOperands: int
    var combineRgbSource0: CombineSource
    var combineRgbOperand0: CombineOperand
    var combineRgbSource1: CombineSource
    var combineRgbOperand1: CombineOperand
    var combineRgbSource2: CombineSource
    var combineRgbOperand2: CombineOperand
    var combineAlphaMode: CombineMode
    var numCombineAlphaOperands: int
    var combineAlphaSource0: CombineSource
    var combineAlphaOperand0: CombineOperand
    var combineAlphaSource1: CombineSource
    var combineAlphaOperand1: CombineOperand
    var combineAlphaSource2: CombineSource
    var combineAlphaOperand2: CombineOperand

    /** Every combine setting is undefined and expects no operands. */
    ghost predicate CombineUndefined()
      reads this
    {
      combineRgbMode == CM_undefined && combineAlphaMode == CM_undefined &&
      numCombineRgbOperands == ExpectedNumCombineOperands(combineRgbMode) &&
      numCombineAlphaOperands == ExpectedNumCombineOperands(combineAlphaMode) &&
      combineRgbSource0 == CS_undefined && combineRgbSource1 == CS_undefined && combineRgbSource2 == CS_undefined &&
      combineRgbOperand0 == CO_undefined && combineRgbOperand1 == CO_undefined && combineRgbOperand2 == CO_undefined &&
      combineAlphaSource0 == CS_undefined && combineAlphaSource1 == CS_undefined && combineAlphaSource2 == CS_undefined &&
      combineAlphaOperand0 == CO_undefined && combineAlphaOperand1 == CO_undefined && combineAlphaOperand2 == CO_undefined
    }

    /** Every field of this stage equals the same field of other. */
    ghost predicate SameAs(other: TextureStage)
      reads this, other
    {
      name == other.name && sort == other.sort && priority == other.priority &&
      texcoordName == other.texcoordName && mode == other.mode && color == other.color &&
      combineRgbMode == other.combineRgbMode && numCombineRgbOperands == other.numCombineRgbOperands &&
      combineRgbSource0 == other.combineRgbSource0 && combineRgbOperand0 == other.combineRgbOperand0 &&
      combineRgbSource1 == other.combineRgbSource1 && combineRgbOperand1 == other.combineRgbOperand1 &&
      combineRgbSource2 == other.combineRgbSource2 && combineRgbOperand2 == other.combineRgbOperand2 &&
      combineAlphaMode == other.combineAlphaMode && numCombineAlphaOperands == other.numCombineAlphaOperands &&
      combineAlphaSource0 == other.combineAlphaSource0 && combineAlphaOperand0 == other.combineAlphaOperand0 &&
      combineAlphaSource1 == other.combineAlphaSource1 && combineAlphaOperand1 == other.combineAlphaOperand1 &&
      combineAlphaSource2 == other.combineAlphaSource2 && combineAlphaOperand2 == other.combineAlphaOperand2
    }

    /**
     * A named stage: sort and priority 0, the default texture coordinates,
     * modulate mode, opaque black, and nothing set up for combining.
     */
    constructor (name: string)
      ensures this.name == name && sort == 0 && priority == 0 && texcoordName == DefaultTexCoord
      ensures mode == M_modulate && color == Color(0.0, 0.0, 0.0, 1.0)
      ensures CombineUndefined() && numCombineRgbOperands == 0 && numCombineAlphaOperands == 0
    {
      this.name := name;
      sort := 0;
      priority := 0;
      texcoordName := DefaultTexCoord;
      mode := M_modulate;
      color := Color(0.0, 0.0, 0.0, 1.0);
      combineRgbMode := CM_undefined;
      numCombineRgbOperands := 0;
      combineRgbSource0 := CS_undefined;
      combineRgbOperand0 := CO_undefined;
      combineRgbSource1 := CS_undefined;
      combineRgbOperand1 := CO_undefined;
      combineRgbSource2 := CS_undefined;
      combineRgbOperand2 := CO_undefined;
      combineAlphaMode := CM_undefined;
      numCombineAlphaOperands := 0;
      combineAlphaSource0 := CS_undefined;
      combineAlphaOperand0 := CO_undefined;
      combineAlphaSource1 := CS_undefined;
      combineAlphaOperand1 := CO_undefined;
      combineAlphaSource2 := CS_undefined;
      combineAlphaOperand2 := CO_undefined;
    }

    /**
     * The copy constructor as written: the two operand counts are never
     * assigned and the first alpha operand is assigned from itself, so all
     * three keep whatever the fresh object held; junk stands for those values.
     */
    constructor CopyAsWritten(copy: TextureStage, junkRgbCount: int, junkAlphaCount: int, junkOperand: CombineOperand)
      ensures name == copy.name && sort == copy.sort && priority == copy.priority
      ensures texcoordName == copy.texcoordName && mode == copy.mode && color == copy.color
      ensures combineRgbMode == copy.combineRgbMode && combineAlphaMode == copy.combineAlphaMode
      ensures combineRgbSource0 == copy.combineRgbSource0 && combineRgbOperand0 == copy.combineRgbOperand0
      ensures combineRgbSource1 == copy.combineRgbSource1 && combineRgbOperand1 == copy.combineRgbOperand1
      ensures combineRgbSource2 == copy.combineRgbSource2 && combineRgbOperand2 == copy.combineRgbOperand2
      ensures combineAlphaSource0 == copy.combineAlphaSource0
      ensures combineAlphaSource1 == copy.combineAlphaSource1 && combineAlphaOperand1 == copy.combineAlphaOperand1
      ensures combineAlphaSource2 == copy.combineAlphaSource2 && combineAlphaOperand2 == copy.combineAlphaOperand2
      ensures numCombineRgbOperands == junkRgbCount && numCombineAlphaOperands == junkAlphaCount
      ensures combineAlphaOperand0 == junkOperand
    {
      numCombineRgbOperands := junkRgbCount;
      numCombineAlphaOperands := junkAlphaCount;
      combineAlphaOperand0 := junkOperand;
      name := copy.name;
      sort := copy.sort;
      priority := copy.priority;
      texcoordName := copy.texcoordName;
      mode := copy.mode;
      color := copy.color;
      combineRgbMode := copy.combineRgbMode;
      combineRgbSource0 := copy.combineRgbSource0;
      combineRgbOperand0 := copy.combineRgbOperand0;
      combineRgbSource1 := copy.combineRgbSource1;
      combineRgbOperand1 := copy.combineRgbOperand1;
      combineRgbSource2 := copy.combineRgbSource2;
      combineRgbOperand2 := copy.combineRgbOperand2;
      combineAlphaMode := copy.combineAlphaMode;
      combineAlphaSource0 := copy.combineAlphaSource0;
      combineAlphaSource1 := copy.combineAlphaSource1;
      combineAlphaOperand1 := copy.combineAlphaOperand1;
      combineAlphaSource2 := copy.combineAlphaSource2;
      combineAlphaOperand2 := copy.combineAlphaOperand2;
    }

    /** The copy constructor as intended: every field, the counts and the first alpha operand included. */
    constructor Copy(copy: TextureStage)
      ensures SameAs(copy)
    {
      name := copy.name;
      sort := copy.sort;
      priority := copy.priority;
      texcoordName := copy.texcoordName;
      mode := copy.mode;
      color := copy.color;
      combineRgbMode := copy.combineRgbMode;
      numCombineRgbOperands := copy.numCombineRgbOperands;
      combineRgbSource0 := copy.combineRgbSource0;
      combineRgbOperand0 := copy.combineRgbOperand0;
      combineRgbSource1 := copy.combineRgbSource1;
      combineRgbOperand1 := copy.combineRgbOperand1;
      combineRgbSource2 := copy.combineRgbSource2;
      combineRgbOperand2 := copy.combineRgbOperand2;
      combineAlphaMode := copy.combineAlphaMode;
      numCombineAlphaOperands := copy.numCombineAlphaOperands;
      combineAlphaSource0 := copy.combineAlphaSource0;
      combineAlphaOperand0 := copy.combineAlphaOperand0;
      combineAlphaSource1 := copy.combineAlphaSource1;
      combineAlphaOperand1 := copy.combineAlphaOperand1;
      combineAlphaSource2 := copy.combineAlphaSource2;
      combineAlphaOperand2 := copy.combineAlphaOperand2;
    }
  }

  /**
   * A stage whose first alpha operand is src_alpha and that expects two
   * alpha operands is copied, as written, into one whose first alpha operand
   * is whatever the new object held (undefined here) and whose count is
   * lost; the intended copy keeps both.
   */
  method CopyLosesAlphaOperand() returns (orig: TextureStage, lossy: TextureStage, faithful: TextureStage)
    ensures orig.combineAlphaOperand0 == CO_src_alpha && orig.numCombineAlphaOperands == 2
    ensures lossy.combineAlphaOperand0 == CO_undefined && lossy.numCombineAlphaOperands == 0
    ensures faithful.combineAlphaOperand0 == CO_src_alpha && faithful.numCombineAlphaOperands == 2
  {
    orig := new TextureStage("stage");
    orig.combineAlphaMode := CM_modulate;
    orig.numCombineAlphaOperands := ExpectedNumCombineOperands(CM_modulate);
    orig.combineAlphaOperand0 := CO_src_alpha;
    lossy := new TextureStage.CopyAsWritten(orig, 0, 0, CO_undefined);
    faithful := new TextureStage.Copy(orig);
  }
}
