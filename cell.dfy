/** One observed cell: its measurements, its connection role and the identifiers derived from its cell id. */
module Cells {

  /** Kotlin's 64-bit `Long`. */
  newtype Long = x: int | -0x8000_0000_0000_0000 <= x < 0x8000_0000_0000_0000

  /** Kotlin's 32-bit `Int`. */
  newtype Int = x: int | -0x8000_0000 <= x < 0x8000_0000

  /** A Kotlin `Double`; carried through unchanged and never computed on, so its rounding does not matter here. */
  type Double = real

  /** A Kotlin nullable value. */
  datatype Option<T> = None | Some(value: T)

  /** The serving role of a cell, as the scanning library reports it. */
  datatype Connection = PrimaryConnection | SecondaryConnection | NoneConnection

  /** The divisor that splits a cell id into node number and sector. */
  const SectorsPerNode: int := 256

  /** Kotlin's `a / 256` on integers: the quotient rounded toward zero. */
  function TruncDiv(a: int): (q: int)
    ensures 0 <= a ==> 0 <= q <= a && q == a / SectorsPerNode
    ensures a < 0 ==> a <= q <= 0
    ensures -SectorsPerNode < a - q * SectorsPerNode < SectorsPerNode
    ensures 0 <= a ==> 0 <= a - q * SectorsPerNode
    ensures a < 0 ==> a - q * SectorsPerNode <= 0
  {
    if 0 <= a then a / SectorsPerNode else -((-a) / SectorsPerNode)
  }

  /** Kotlin's `a % 256` on integers: the remainder of TruncDiv, which takes the sign of the dividend. */
  function TruncRem(a: int): (r: int)
    ensures TruncDiv(a) * SectorsPerNode + r == a
    ensures -SectorsPerNode < r < SectorsPerNode
    ensures 0 <= a ==> 0 <= r && r == a % SectorsPerNode
    ensures a < 0 ==> r <= 0
  {
    a - TruncDiv(a) * SectorsPerNode
  }

  /** Quotient and remainder of truncated division by 256 are the only pair with its defining properties. */
  lemma TruncDivUnique(a: int, q: int, r: int)
    requires q * SectorsPerNode + r == a && -SectorsPerNode < r < SectorsPerNode
    requires (0 <= a ==> 0 <= r) && (a < 0 ==> r <= 0)
    ensures q == TruncDiv(a) && r == TruncRem(a)
  {
  }

  /** A snapshot of every field of a Cell, used to state what SetActive does to the whole record. */
  datatype CellFields = CellFields(
    networkType: string, mcc: Option<string>, mnc: Option<string>, tac: Option<string>,
    connectionType: Connection, rsrp: Int, signalStrength: Int, cellId: Long, sectorId: Int,
    rfcn: Int, pci: Option<Int>, rsrq: Option<Int>, sinr: Option<Int>, bandNr: Int,
    bandName: Option<string>, rxFrequency: Double, txFrequency: Double)

  /** The record `f` after its role is set from `active`: the role becomes Primary or None, nothing else changes. */
  function Activated(f: CellFields, active: bool): (g: CellFields)
    ensures g.connectionType != SecondaryConnection
    ensures g.connectionType == PrimaryConnection <==> active
    ensures g == f.(connectionType := g.connectionType)
  {
    f.(connectionType := if active then PrimaryConnection else NoneConnection)
  }

  /** Setting the role twice with the same flag leaves the record as setting it once. */
  lemma ActivatedIdempotent(f: CellFields, active: bool)
    ensures Activated(Activated(f, active), active) == Activated(f, active)
  {
  }

  /** Only the last of two role settings matters. */
  lemma ActivatedLastWins(f: CellFields, first: bool, second: bool)
    ensures Activated(Activated(f, first), second) == Activated(f, second)
  {
  }

  /** For a negative id, a cell's node number and sector are the truncated quotient and remainder by 256. */
  lemma NegativeIdTruncates(c: Cell)
    requires c.cellId < 0
    ensures c.GetEnbNumber() as int == TruncDiv(c.cellId as int) && c.GetSector() as int == TruncRem(c.cellId as int)
    ensures c.cellId == -1 ==> c.GetEnbNumber() == 0 && c.GetSector() == -1
  {
    TruncDivUnique(c.cellId as int, c.GetEnbNumber() as int, c.GetSector() as int);
  }

  /** One cell; every field is mutable, as in the source's record. */
  class Cell {
    var networkType: string
    var mcc: Option<string>
    var mnc: Option<string>
    var tac: Option<string>
    var connectionType: Connection
    var rsrp: Int
    var signalStrength: Int
    var cellId: Long
    var sectorId: Int
    var rfcn: Int
    var pci: Option<Int>
    var rsrq: Option<Int>
    var sinr: Option<Int>
    var bandNr: Int
    var bandName: Option<string>
    var rxFrequency: Double
    var txFrequency: Double

    /** All fields as one value. */
    ghost function Fields(): CellFields
      reads this
    {
      CellFields(networkType, mcc, mnc, tac, connectionType, rsrp, signalStrength, cellId, sectorId,
                 rfcn, pci, rsrq, sinr, bandNr, bandName, rxFrequency, txFrequency)
    }

    /** The record's constructor; the string fields default to "?" as in the source. */
    constructor (networkType: string := "?", mcc: Option<string> := Some("?"), mnc: Option<string> := Some("?"),
                 tac: Option<string> := Some("?"), connectionType: Connection, rsrp: Int, signalStrength: Int,
                 cellId: Long, sectorId: Int, rfcn: Int, pci: Option<Int>, rsrq: Option<Int>, sinr: Option<Int>,
                 bandNr: Int, bandName: Option<string> := Some("?"), rxFrequency: Double, txFrequency: Double)
      ensures Fields() == CellFields(networkType, mcc, mnc, tac, connectionType, rsrp, signalStrength, cellId,
                                     sectorId, rfcn, pci, rsrq, sinr, bandNr, bandName, rxFrequency, txFrequency)
    {
      this.networkType := networkType;
      this.mcc := mcc;
      this.mnc := mnc;
      this.tac := tac;
      this.connectionType := connectionType;
      this.rsrp := rsrp;
      this.signalStrength := signalStrength;
      this.cellId := cellId;
      this.sectorId := sectorId;
      this.rfcn := rfcn;
      this.pci := pci;
      this.rsrq := rsrq;
      this.sinr := sinr;
      this.bandNr := bandNr;
      this.bandName := bandName;
      this.rxFrequency := rxFrequency;
      this.txFrequency := txFrequency;
    }

    /** The eNB/gNB number: the cell id divided by 256, rounded toward zero. */
    function GetEnbNumber(): (n: Long)
      reads this
      ensures 0 <= cellId ==> 0 <= n && n as int == cellId as int / SectorsPerNode
      ensures cellId < 0 ==> cellId <= n <= 0 && -SectorsPerNode < cellId as int - n as int * SectorsPerNode <= 0
    {
      TruncDiv(cellId as int) as Long
    }

    /** The sector: the remainder of the cell id by 256, with the sign of the cell id. */
    function GetSector(): (s: Int)
      reads this
      ensures GetEnbNumber() as int * SectorsPerNode + s as int == cellId as int
      ensures -SectorsPerNode < s as int < SectorsPerNode
      ensures 0 <= cellId ==> 0 <= s && s as int == cellId as int % SectorsPerNode
      ensures cellId < 0 ==> s <= 0
    {
      TruncRem(cellId as int) as Int
    }

    /** A cell is active exactly when it has a serving role, primary or secondary. */
    function IsActive(): (b: bool)
      reads this
      ensures b <==> connectionType != NoneConnection
    {
      connectionType.PrimaryConnection? || connectionType.SecondaryConnection?
    }

    /** The only mutator: the role becomes Primary when `active`, None otherwise. */
    method SetActive(active: bool)
      modifies this
      ensures Fields() == Activated(old(Fields()), active)
      ensures connectionType == (if active then PrimaryConnection else NoneConnection)
      ensures IsActive() == active
      ensures cellId == old(cellId) && GetEnbNumber() == old(GetEnbNumber()) && GetSector() == old(GetSector())
    {
      connectionType := if active then PrimaryConnection else NoneConnection;
    }
  }
}
