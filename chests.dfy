/**
 * Chest slot geometry: a chest is a grid of `rows` by `slotsPerRow` slots,
 * 38 pixels apart, whose top-left slot sits at a known screen position.
 * Slots are numbered row by row from 0.
 */
module Chests {
  import opened Wrappers
  import opened Screen
  import Config

  /** Distance in pixels between the centres of neighbouring slots. */
  const SlotsDistance: int := 38

  /** The two `ValueError`s of slot validation. */
  datatype ChestError =
    | NotNumeric   // the slot's decimal text is not all digits: a negative slot
    | OutOfRange   // the slot is past the last one

  /** Fields are set once at construction and never change. */
  datatype Chest = Chest(topLeft: Point, rows: nat, slotsPerRow: nat)
  {
    /** `_total_number_of_slots`. */
    function TotalSlots(): nat
    {
      rows * slotsPerRow
    }
  }

  /** `SmallChest`: three rows of nine slots at the configured position. */
  const SmallChest := Chest(Config.SmallChestTopLeftSlot, 3, 9)

  /** `_validate_chest_slot`: `None` when the slot is accepted, else the error raised. */
  function ValidateSlot(chest: Chest, slot: int): (r: Option<ChestError>)
    ensures r.None? <==> 0 <= slot < chest.TotalSlots()
  {
    if slot < 0 then Some(NotNumeric)
    else if !(slot <= chest.TotalSlots() - 1) then Some(OutOfRange)
    else None
  }

  /** `_calc_chest_slot_coordinates`: row-major decomposition, scaled by the slot distance. */
  function SlotCoordinates(chest: Chest, slot: nat): (p: Point)
    requires slot < chest.TotalSlots()
  {
    var row := slot / chest.slotsPerRow;
    var column := slot % chest.slotsPerRow;
    Point(chest.topLeft.x + column * SlotsDistance, chest.topLeft.y + row * SlotsDistance)
  }

  /** `get_slot_coordinates`: validate, then compute. */
  function GetSlotCoordinates(chest: Chest, slot: int): (r: Result<Point, ChestError>)
    ensures r.Ok? <==> 0 <= slot < chest.TotalSlots()
    ensures r.Err? ==> r.error == (if slot < 0 then NotNumeric else OutOfRange)
    ensures r.Ok? ==> r.value == SlotCoordinates(chest, slot)
  {
    match ValidateSlot(chest, slot)
    case Some(e) => Err(e)
    case None => Ok(SlotCoordinates(chest, slot))
  }

  /**
   * Partner of `SlotCoordinates`: the slot whose centre is at `p`, if any.
   * It is not in the source; it exists to state that the layout is invertible.
   */
  function SlotAt(chest: Chest, p: Point): Option<nat>
  {
    var dx := p.x - chest.topLeft.x;
    var dy := p.y - chest.topLeft.y;
    if dx >= 0 && dy >= 0 && dx % SlotsDistance == 0 && dy % SlotsDistance == 0
       && dx / SlotsDistance < chest.slotsPerRow && dy / SlotsDistance < chest.rows
    then Some(dy / SlotsDistance * chest.slotsPerRow + dx / SlotsDistance)
    else None
  }

  /** A valid slot splits into a row below `rows` and a column below `slotsPerRow`. */
  lemma {:induction false} RowColumnDecomposition(chest: Chest, slot: nat)
    requires slot < chest.TotalSlots()
    ensures chest.slotsPerRow > 0
    ensures slot / chest.slotsPerRow < chest.rows
    ensures slot % chest.slotsPerRow < chest.slotsPerRow
    ensures slot == slot / chest.slotsPerRow * chest.slotsPerRow + slot % chest.slotsPerRow
  {
    var n := chest.slotsPerRow;
    assert chest.rows * n > 0;
    var q := slot / n;
    assert (chest.rows - q) * n == chest.rows * n - q * n;
    PositiveFactor(chest.rows - q, n);
  }

  lemma PositiveFactor(x: int, n: nat)
    requires n > 0 && x * n > 0
    ensures x > 0
  {
  }

  /** Slot 0 is the top-left slot itself. */
  lemma FirstSlotIsTopLeft(chest: Chest)
    requires chest.TotalSlots() > 0
    ensures GetSlotCoordinates(chest, 0) == Ok(chest.topLeft)
  {
    RowColumnDecomposition(chest, 0);
  }

  /** Every valid slot lands inside the rectangle spanned by the first and the last slot. */
  lemma {:induction false} SlotCoordinatesInGrid(chest: Chest, slot: nat)
    requires slot < chest.TotalSlots()
    ensures var p := SlotCoordinates(chest, slot);
      && chest.topLeft.x <= p.x <= chest.topLeft.x + SlotsDistance * (chest.slotsPerRow - 1)
      && chest.topLeft.y <= p.y <= chest.topLeft.y + SlotsDistance * (chest.rows - 1)
  {
    RowColumnDecomposition(chest, slot);
  }

  /** `SlotAt` undoes `SlotCoordinates`. */
  lemma {:induction false} SlotAtInverts(chest: Chest, slot: nat)
    requires slot < chest.TotalSlots()
    ensures SlotAt(chest, SlotCoordinates(chest, slot)) == Some(slot)
  {
    RowColumnDecomposition(chest, slot);
    var n := chest.slotsPerRow;
    var row, column := slot / n, slot % n;
    assert (column * SlotsDistance) / SlotsDistance == column;
    assert (row * SlotsDistance) / SlotsDistance == row;
    assert (column * SlotsDistance) % SlotsDistance == 0;
    assert (row * SlotsDistance) % SlotsDistance == 0;
  }

  /** Distinct valid slots are drawn at distinct screen positions. */
  lemma SlotCoordinatesInjective(chest: Chest, a: nat, b: nat)
    requires a < chest.TotalSlots() && b < chest.TotalSlots()
    requires SlotCoordinates(chest, a) == SlotCoordinates(chest, b)
    ensures a == b
  {
    SlotAtInverts(chest, a);
    SlotAtInverts(chest, b);
  }

  /** The small chest accepts exactly the slots 0 to 26. */
  lemma SmallChestSlots(slot: int)
    ensures GetSlotCoordinates(SmallChest, slot).Ok? <==> 0 <= slot <= 26
  {
  }
}
