/** The `marked` byte of lgc.h, and the colours it stands for. */
module GcBits {
  import opened Basics
  import opened GcHeap
  import opened GcSweep

  type Byte = bv8

  const WHITE0: Byte := 0x01
  const WHITE1: Byte := 0x02
  const WHITES: Byte := 0x03
  const BLACK: Byte := 0x04
  const FIXED: Byte := 0x20

  /** At most one colour bit is set. */
  predicate WellMarked(m: Byte) {
    m & (WHITES | BLACK) in {0, WHITE0, WHITE1, BLACK}
  }

  function ColourOf(m: Byte): Colour {
    if m & BLACK != 0 then Black
    else if m & WHITE0 != 0 then White(false)
    else if m & WHITE1 != 0 then White(true)
    else Gray
  }

  function FixedOf(m: Byte): bool { m & FIXED != 0 }

  /** GCObject as it is stored, and as the collector's model sees it */
  datatype GCObject = GCObject(marked: Byte, body: Body)

  function AsObj(o: GCObject): Obj { Obj(ColourOf(o.marked), FixedOf(o.marked), o.body) }

  /** `currentwhite` carries the fixed bit beside one white bit, from lua_newstate on. */
  function CurrentWhite(w: bool): Byte { (if w then WHITE1 else WHITE0) | FIXED }

  function OtherWhite(current: Byte): Byte { current ^ WHITES }

  function MakeWhite(current: Byte, m: Byte): Byte { (m & !(BLACK | WHITES)) | (current & WHITES) }

  function White2Gray(m: Byte): Byte { m & !WHITES }

  function Black2Gray(m: Byte): Byte { m & !BLACK }

  function Gray2Black(m: Byte): Byte { m | BLACK }

  function ChangeWhite(m: Byte): Byte { m ^ WHITES }

  /**
   The macros do to the stored object what painting does to the model's, and leave the fixed bit
   and the body alone.
   */
  lemma MacrosPaint(o: GCObject, w: bool)
    requires WellMarked(o.marked)
    ensures var made := o.(marked := MakeWhite(CurrentWhite(w), o.marked));
      WellMarked(made.marked) && AsObj(made) == AsObj(o).(colour := White(w))
    ensures IsWhite(AsObj(o)) ==>
      var gray := o.(marked := White2Gray(o.marked));
      WellMarked(gray.marked) && AsObj(gray) == AsObj(o).(colour := Gray)
    ensures IsWhite(AsObj(o)) ==>
      AsObj(o.(marked := ChangeWhite(o.marked))) == AsObj(o).(colour := White(!ColourOf(o.marked).bit))
    ensures AsObj(o).colour == Black ==>
      var gray := o.(marked := Black2Gray(o.marked));
      WellMarked(gray.marked) && AsObj(gray) == AsObj(o).(colour := Gray)
    ensures AsObj(o).colour == Gray ==>
      var black := o.(marked := Gray2Black(o.marked));
      WellMarked(black.marked) && AsObj(black) == AsObj(o).(colour := Black)
  {
  }

  /** iswhite, isdead and the test of sweeplist, which spares exactly what the model does not erase */
  lemma BitTests(s: State, o: GCObject)
    requires WellMarked(o.marked)
    ensures (o.marked & WHITES != 0) <==> IsWhite(AsObj(o))
    ensures (o.marked & OtherWhite(CurrentWhite(s.white)) & WHITES != 0) <==> IsDead(s, AsObj(o))
    ensures ((o.marked ^ WHITES) & OtherWhite(CurrentWhite(s.white)) != 0) <==> !Erasable(s, AsObj(o))
  {
  }

  /** The flip at the end of atomic keeps the fixed bit in `currentwhite`. */
  lemma FlipKeepsFixed(w: bool)
    ensures OtherWhite(CurrentWhite(w)) == CurrentWhite(!w)
  {
  }
}
