/**
 * The score upload of event_manager/upload_scores/uploader.py: the pass over
 * the records that splits them into skipped rows, rejected rows and accepted
 * players (each with up to 40 entry slots), the replacement of the
 * `tournament` collection by the accepted players, the dry-run preview, and
 * the stand-alone `validate_entry` check.
 */
module Uploader {
  import opened Wrappers
  import opened PyStr
  import opened Models
  import Config

  /** One record: column name to cell text. An absent key stands for a missing or None cell. */
  type Row = map<string, string>

  datatype Entry = Entry(groupName: string, score: int, sub: bool)

  /** The document written for one player. */
  datatype Player = Player(playerName: string, playerId: int, entries: seq<Entry>, totalEntries: int)

  /** Why constructing the `PlayerEntry` of a row failed. */
  datatype Cause =
    | TotalEntriesNotAnInteger(raw: string)   // int() on the totalEntries cell raised
    | InvalidFields(errors: seq<FieldError>)  // the PlayerEntry field constraints failed

  /** One entry of `validation_errors`. */
  datatype Rejection =
    | MissingId                               // "playerId is missing or empty."
    | IdNotAnInteger(raw: string)             // "playerId '<raw>' is not a valid integer."
    | InvalidEntry(playerId: int, cause: Cause)

  /** What happens to one row that does not end the run. */
  datatype Verdict = Skip | Reject(reason: Rejection) | Accept(player: Player)

  /** `int(row.get('Points i', 0) or 0)` raised on slot i with this cell text. */
  datatype BadPoints = BadPoints(slot: nat, raw: string)

  /** The uncaught ValueError that ends the run: the row's position and its bad cell. */
  datatype Abort = Abort(row: nat, bad: BadPoints)

  /** `processed_data`, `validation_errors` and the ids of the short-id warnings, in order. */
  datatype Batch = Batch(accepted: seq<Player>, errors: seq<Rejection>, warnings: seq<int>)

  // ---------------------------------------------------------------------------
  // Reading cells

  /** `row.get(key)`. */
  function Cell(row: Row, key: string): Option<string> {
    if key in row then Some(row[key]) else None
  }

  /** A cell is truthy when it is present and not the empty string. */
  predicate Truthy(c: Option<string>) {
    c.Some? && c.value != ""
  }

  /** `int(cell or 0)`: a falsy cell counts as 0; None means int() raised. */
  function IntOrZero(c: Option<string>): (r: Option<int>)
    ensures r.None? <==> Truthy(c) && ParseInt(c.value).None?
    ensures !Truthy(c) ==> r == Some(0)
    ensures Truthy(c) ==> r == ParseInt(c.value)
  {
    if Truthy(c) then ParseInt(c.value) else Some(0)
  }

  const SlotCount: nat := 40

  function EntryKey(i: nat): string {
    "Entry " + Str(i)
  }

  function PointsKey(i: nat): string {
    "Points " + Str(i)
  }

  /** A slot's entry: the group name verbatim, its score, and whether it names a substitute. */
  function SlotEntry(group: string, score: int): Entry {
    Entry(group, score, StartsWith(group, "Sub"))
  }

  // ---------------------------------------------------------------------------
  // Entry slots (the `range(1, 41)` loop)

  /**
   * The entries of slots 1..k: each slot first parses its points cell (which
   * may end the run), then contributes an entry when its group cell is truthy.
   */
  function EntriesUpTo(row: Row, k: nat): Result<seq<Entry>, BadPoints>
    requires k <= SlotCount
  {
    if k == 0 then Success([])
    else match EntriesUpTo(row, k - 1)
      case Failure(bad) => Failure(bad)
      case Success(es) =>
        var points := Cell(row, PointsKey(k));
        match IntOrZero(points)
        case None => Failure(BadPoints(k, points.value))
        case Some(score) =>
          var group := Cell(row, EntryKey(k));
          Success(if Truthy(group) then es + [SlotEntry(group.value, score)] else es)
  }

  function Entries(row: Row): Result<seq<Entry>, BadPoints> {
    EntriesUpTo(row, SlotCount)
  }

  /** The slots among 1..k whose group cell is truthy, ascending. */
  function OccupiedSlots(row: Row, k: nat): seq<nat> {
    if k == 0 then []
    else OccupiedSlots(row, k - 1) + (if Truthy(Cell(row, EntryKey(k))) then [k] else [])
  }

  lemma {:induction false} OccupiedSlotsBounds(row: Row, k: nat)
    ensures |OccupiedSlots(row, k)| <= k
    ensures forall j :: 0 <= j < |OccupiedSlots(row, k)| ==> 1 <= OccupiedSlots(row, k)[j] <= k
    ensures forall a, b :: 0 <= a < b < |OccupiedSlots(row, k)| ==> OccupiedSlots(row, k)[a] < OccupiedSlots(row, k)[b]
  {
    if k > 0 {
      OccupiedSlotsBounds(row, k - 1);
    }
  }

  /**
   * Entry e is slot i's: the group name verbatim and non-empty, `sub` iff
   * the name starts with "Sub", and the slot's points parsed (0 when empty).
   */
  predicate FromSlot(row: Row, i: nat, e: Entry) {
    && Cell(row, EntryKey(i)) == Some(e.groupName)
    && e.groupName != ""
    && e.sub == StartsWith(e.groupName, "Sub")
    && IntOrZero(Cell(row, PointsKey(i))) == Some(e.score)
  }

  /** The entries are exactly the occupied slots' entries, in ascending slot order. */
  lemma {:induction false} EntriesFromSlots(row: Row, k: nat, es: seq<Entry>)
    requires k <= SlotCount
    requires EntriesUpTo(row, k) == Success(es)
    ensures |es| == |OccupiedSlots(row, k)|
    ensures forall j :: 0 <= j < |es| ==> FromSlot(row, OccupiedSlots(row, k)[j], es[j])
  {
    if k > 0 {
      var prev := EntriesUpTo(row, k - 1).value;
      EntriesFromSlots(row, k - 1, prev);
      var slots := OccupiedSlots(row, k - 1);
      var group := Cell(row, EntryKey(k));
      var score := IntOrZero(Cell(row, PointsKey(k))).value;
      if Truthy(group) {
        assert es == prev + [SlotEntry(group.value, score)];
        assert OccupiedSlots(row, k) == slots + [k];
        assert FromSlot(row, k, es[|prev|]);
      } else {
        assert es == prev;
        assert OccupiedSlots(row, k) == slots;
      }
    }
  }

  /** `int(row.get('Points i', 0) or 0)` does not raise. */
  predicate PointsOk(row: Row, i: nat) {
    IntOrZero(Cell(row, PointsKey(i))).Some?
  }

  /**
   * The slot loop ends the run exactly when some slot in 1..k has a
   * malformed points cell, whether or not its group cell is filled.
   */
  lemma {:induction false} EntriesAbortIff(row: Row, k: nat)
    requires k <= SlotCount
    ensures EntriesUpTo(row, k).Failure? <==> exists i :: 1 <= i <= k && !PointsOk(row, i)
  {
    if k > 0 {
      EntriesAbortIff(row, k - 1);
      if EntriesUpTo(row, k - 1).Failure? {
        assert EntriesUpTo(row, k) == EntriesUpTo(row, k - 1);
      } else if !PointsOk(row, k) {
        assert EntriesUpTo(row, k).Failure?;
      } else {
        assert EntriesUpTo(row, k).Success?;
      }
    }
  }

  /**
   * The slot reported is the first one with a malformed points cell, with
   * that cell's text, which int() refuses.
   */
  lemma {:induction false} FirstBadSlot(row: Row, k: nat)
    requires k <= SlotCount
    requires EntriesUpTo(row, k).Failure?
    ensures var bad := EntriesUpTo(row, k).error;
      && 1 <= bad.slot <= k
      && Cell(row, PointsKey(bad.slot)) == Some(bad.raw)
      && ParseInt(bad.raw).None?
      && forall i :: 1 <= i < bad.slot ==> PointsOk(row, i)
  {
    if EntriesUpTo(row, k - 1).Failure? {
      FirstBadSlot(row, k - 1);
      assert EntriesUpTo(row, k) == EntriesUpTo(row, k - 1);
    } else {
      EntriesAbortIff(row, k - 1);
      var points := Cell(row, PointsKey(k));
      assert EntriesUpTo(row, k) == Failure(BadPoints(k, points.value));
    }
  }

  /** Once a slot has ended the loop, later slots change nothing. */
  lemma {:induction false} FailurePersists(row: Row, i: nat, k: nat)
    requires i <= k <= SlotCount
    requires EntriesUpTo(row, i).Failure?
    ensures EntriesUpTo(row, k) == EntriesUpTo(row, i)
  {
    if k > i {
      FailurePersists(row, i, k - 1);
    }
  }

  /** An accepted player never has more than 40 entries. */
  lemma EntriesAtMost40(row: Row, es: seq<Entry>)
    requires Entries(row) == Success(es)
    ensures |es| <= SlotCount
  {
    EntriesFromSlots(row, SlotCount, es);
    OccupiedSlotsBounds(row, SlotCount);
  }

  /** The `range(1, 41)` loop: builds the entries list slot by slot. */
  method BuildEntries(row: Row) returns (r: Result<seq<Entry>, BadPoints>)
    ensures r == Entries(row)
  {
    var entries: seq<Entry> := [];
    var i := 1;
    while i <= SlotCount
      invariant 1 <= i <= SlotCount + 1
      invariant EntriesUpTo(row, i - 1) == Success(entries)
    {
      var group := Cell(row, EntryKey(i));
      var points := Cell(row, PointsKey(i));
      var score := IntOrZero(points);
      if score.None? {
        FailurePersists(row, i, SlotCount);
        return Failure(BadPoints(i, points.value));
      }
      if Truthy(group) {
        entries := entries + [SlotEntry(group.value, score.value)];
      }
      i := i + 1;
    }
    return Success(entries);
  }

  // ---------------------------------------------------------------------------
  // One row

  /** Both `playerId` and `playerName` are falsy: the row is skipped silently. */
  predicate BlankRow(row: Row) {
    !Truthy(Cell(row, "playerId")) && !Truthy(Cell(row, "playerName"))
  }

  /** The verdict on one row, or the malformed points cell that ends the run. */
  function ProcessRow(row: Row): Result<Verdict, BadPoints> {
    var rawId := Cell(row, "playerId");
    if BlankRow(row) then Success(Skip)
    else if rawId.None? || IsBlank(rawId.value) then Success(Reject(MissingId))
    else match ParseInt(rawId.value)
      case None => Success(Reject(IdNotAnInteger(rawId.value)))
      case Some(playerId) =>
        var total := Cell(row, "totalEntries");
        match IntOrZero(total)
        case None => Success(Reject(InvalidEntry(playerId, TotalEntriesNotAnInteger(total.value))))
        case Some(totalEntries) =>
          match NewPlayerEntry(Cell(row, "playerName"), playerId, totalEntries)
          case Failure(errors) => Success(Reject(InvalidEntry(playerId, InvalidFields(errors))))
          case Success(entry) =>
            match Entries(row)
            case Failure(bad) => Failure(bad)
            case Success(es) => Success(Accept(Player(entry.playerName, entry.playerId, es, entry.totalEntries)))
  }

  /** The integer id a row reached (the point where the short-id warning is decided). */
  function ParsedId(v: Verdict): Option<int> {
    match v
    case Accept(p) => Some(p.playerId)
    case Reject(InvalidEntry(id, _)) => Some(id)
    case _ => None
  }

  /** `len(str(id)) < 10`: the id is logged as suspiciously short (and still imported). */
  predicate ShortId(id: int) {
    |Str(id)| < 10
  }

  /** A row is skipped silently exactly when both `playerId` and `playerName` are falsy. */
  lemma RowSkipIff(row: Row)
    ensures ProcessRow(row) == Success(Skip) <==> BlankRow(row)
  {
  }

  /**
   * A row that is not skipped is rejected as "missing or empty" when its id
   * is absent or whitespace-only, and as "not a valid integer", with the raw
   * text, when int() refuses the id.
   */
  lemma RowIdRules(row: Row)
    ensures ProcessRow(row) == Success(Reject(MissingId)) <==>
      !BlankRow(row) && ("playerId" !in row || IsBlank(row["playerId"]))
    ensures ProcessRow(row).Success? && ProcessRow(row).value.Reject? && ProcessRow(row).value.reason.IdNotAnInteger? <==>
      !BlankRow(row) && "playerId" in row && !IsBlank(row["playerId"]) && ParseInt(row["playerId"]).None?
    ensures ProcessRow(row).Success? && ProcessRow(row).value.Reject? && ProcessRow(row).value.reason.IdNotAnInteger? ==>
      ProcessRow(row).value.reason.raw == row["playerId"]
  {
  }

  /**
   * Every other outcome, ending the run included, is reached exactly when
   * the id parses, and carries the parsed id.
   */
  lemma RowIdParsed(row: Row)
    ensures (ProcessRow(row).Failure? || ParsedId(ProcessRow(row).value).Some?) <==>
      !BlankRow(row) && "playerId" in row && !IsBlank(row["playerId"]) && ParseInt(row["playerId"]).Some?
    ensures ProcessRow(row).Success? && ParsedId(ProcessRow(row).value).Some? ==>
      "playerId" in row && ParseInt(row["playerId"]) == ParsedId(ProcessRow(row).value)
  {
  }

  /**
   * `totalEntries`: an absent or empty cell counts as 0; text that int()
   * rejects (whitespace-only included) and negative values reject the row
   * rather than ending the run.
   */
  lemma TotalEntriesRule(row: Row, playerId: int)
    requires !BlankRow(row) && "playerId" in row && ParseInt(row["playerId"]) == Some(playerId)
    ensures "totalEntries" in row && row["totalEntries"] != "" && ParseInt(row["totalEntries"]).None? ==>
      ProcessRow(row) == Success(Reject(InvalidEntry(playerId, TotalEntriesNotAnInteger(row["totalEntries"]))))
    ensures "totalEntries" in row && ParseInt(row["totalEntries"]).Some? && ParseInt(row["totalEntries"]).value < 0 ==>
      var t := ParseInt(row["totalEntries"]).value;
      ProcessRow(row).Success? && ProcessRow(row).value.Reject?
      && ProcessRow(row).value.reason.InvalidEntry?
      && ProcessRow(row).value.reason.cause.InvalidFields?
      && TotalEntriesBelowZero(t) in ProcessRow(row).value.reason.cause.errors
    ensures ProcessRow(row).Success? && ProcessRow(row).value.Accept? && !Truthy(Cell(row, "totalEntries")) ==>
      ProcessRow(row).value.player.totalEntries == 0
  {
    ParsedNotBlank(row["playerId"]);
  }

  /**
   * A row is accepted as `p` exactly when it carries `p`'s name verbatim
   * (blank names included), an id that int() reads as `p`'s id, a
   * non-negative `totalEntries` read as `p`'s, and slot entries that are
   * `p`'s entries, of which there are at most 40. Nothing else, the id's
   * length in particular, stops the row.
   */
  lemma AcceptedFromRow(row: Row, p: Player)
    ensures ProcessRow(row) == Success(Accept(p)) <==>
      && Cell(row, "playerName") == Some(p.playerName)
      && "playerId" in row && ParseInt(row["playerId"]) == Some(p.playerId)
      && IntOrZero(Cell(row, "totalEntries")) == Some(p.totalEntries) && p.totalEntries >= 0
      && Entries(row) == Success(p.entries)
    ensures ProcessRow(row) == Success(Accept(p)) ==> |p.entries| <= SlotCount
  {
    if "playerId" in row && ParseInt(row["playerId"]).Some? {
      ParsedNotBlank(row["playerId"]);
    }
    if ProcessRow(row) == Success(Accept(p)) {
      EntriesAtMost40(row, p.entries);
    }
  }

  /**
   * A row with an integer id, a name made only of whitespace, a usable
   * `totalEntries` and well-formed points is accepted: the name check of
   * `PlayerEntry` is not applied.
   */
  lemma BlankNameRowAccepted(row: Row, playerId: int, es: seq<Entry>)
    requires "playerId" in row && !IsBlank(row["playerId"]) && ParseInt(row["playerId"]) == Some(playerId)
    requires "playerName" in row && IsBlank(row["playerName"])
    requires IntOrZero(Cell(row, "totalEntries")).Some? && IntOrZero(Cell(row, "totalEntries")).value >= 0
    requires Entries(row) == Success(es)
    ensures ProcessRow(row) == Success(Accept(Player(row["playerName"], playerId, es, IntOrZero(Cell(row, "totalEntries")).value)))
  {
    var name := row["playerName"];
    var total := IntOrZero(Cell(row, "totalEntries")).value;
    assert row["playerId"] != "";
    assert !BlankRow(row);
    assert NewPlayerEntry(Some(name), playerId, total) == Success(PlayerEntry(name, playerId, total));
  }

  /** A row that reaches the slot loop ends the whole run on a malformed points cell. */
  lemma BadPointsEndsRun(row: Row, bad: BadPoints)
    requires ProcessRow(row) == Failure(bad)
    ensures 1 <= bad.slot <= SlotCount && Cell(row, PointsKey(bad.slot)) == Some(bad.raw) && ParseInt(bad.raw).None?
  {
    assert Entries(row) == Failure(bad);
    FirstBadSlot(row, SlotCount);
  }

  /**
   * A row ends the run exactly when it passes the id, `totalEntries` and
   * `PlayerEntry` checks and some slot has a points cell int() refuses.
   */
  lemma RowAbortIff(row: Row)
    ensures ProcessRow(row).Failure? <==>
      && "playerName" in row
      && "playerId" in row && ParseInt(row["playerId"]).Some?
      && IntOrZero(Cell(row, "totalEntries")).Some? && IntOrZero(Cell(row, "totalEntries")).value >= 0
      && (exists i :: 1 <= i <= SlotCount && !PointsOk(row, i))
  {
    if "playerId" in row && ParseInt(row["playerId"]).Some? {
      ParsedNotBlank(row["playerId"]);
    }
    EntriesAbortIff(row, SlotCount);
  }

  // ---------------------------------------------------------------------------
  // The row pass

  /** Adds one row's verdict to the batch, with its short-id warning. */
  function Record(b: Batch, v: Verdict): Batch {
    var warnings := match ParsedId(v)
      case Some(id) => if ShortId(id) then b.warnings + [id] else b.warnings
      case None => b.warnings;
    match v
    case Skip => b
    case Reject(reason) => Batch(b.accepted, b.errors + [reason], warnings)
    case Accept(p) => Batch(b.accepted + [p], b.errors, warnings)
  }

  /** The loop over the records: the batch, or the first malformed points cell. */
  function ProcessAll(rows: seq<Row>): Result<Batch, Abort> {
    if rows == [] then Success(Batch([], [], []))
    else match ProcessAll(rows[..|rows| - 1])
      case Failure(a) => Failure(a)
      case Success(b) =>
        match ProcessRow(rows[|rows| - 1])
        case Failure(bad) => Failure(Abort(|rows| - 1, bad))
        case Success(v) => Success(Record(b, v))
  }

  /** Once a row has ended the run, later rows change nothing. */
  lemma {:induction false} AbortPersists(rows: seq<Row>, n: nat)
    requires n <= |rows|
    requires ProcessAll(rows[..n]).Failure?
    ensures ProcessAll(rows) == ProcessAll(rows[..n])
  {
    if n < |rows| {
      var init := rows[..|rows| - 1];
      assert init[..n] == rows[..n];
      AbortPersists(init, n);
    } else {
      assert rows[..n] == rows;
    }
  }

  /** The number of blank rows. */
  function CountBlank(rows: seq<Row>): nat {
    if rows == [] then 0
    else CountBlank(rows[..|rows| - 1]) + (if BlankRow(rows[|rows| - 1]) then 1 else 0)
  }

  /**
   * The run ends with an uncaught error exactly when some row ends it, and
   * then it is the first such row.
   */
  lemma {:induction false} ProcessAllAbortIff(rows: seq<Row>)
    ensures ProcessAll(rows).Failure? <==> exists i :: 0 <= i < |rows| && ProcessRow(rows[i]).Failure?
    ensures ProcessAll(rows).Failure? ==>
      var a := ProcessAll(rows).error;
      && a.row < |rows|
      && ProcessRow(rows[a.row]) == Failure(a.bad)
      && forall i :: 0 <= i < a.row ==> ProcessRow(rows[i]).Success?
  {
    if rows != [] {
      var init := rows[..|rows| - 1];
      ProcessAllAbortIff(init);
      assert forall i :: 0 <= i < |init| ==> init[i] == rows[i];
    }
  }

  /** Every non-blank row adds exactly one item to the accepted players or the errors. */
  lemma {:induction false} ProcessAllCounts(rows: seq<Row>, b: Batch)
    requires ProcessAll(rows) == Success(b)
    ensures |b.accepted| + |b.errors| + CountBlank(rows) == |rows|
  {
    if rows != [] {
      var init := rows[..|rows| - 1];
      var b0 :| ProcessAll(init) == Success(b0);
      ProcessAllCounts(init, b0);
    }
  }

  /**
   * The batch grows by appending only: the batch of any prefix of the
   * records is a prefix of the whole batch, so players and errors keep the
   * input order.
   */
  lemma {:induction false} ProcessAllPrefix(rows: seq<Row>, n: nat, b: Batch)
    requires n <= |rows|
    requires ProcessAll(rows) == Success(b)
    ensures ProcessAll(rows[..n]).Success?
    ensures var p := ProcessAll(rows[..n]).value;
      && p.accepted <= b.accepted && p.errors <= b.errors && p.warnings <= b.warnings
  {
    if n < |rows| {
      var init := rows[..|rows| - 1];
      var b0 :| ProcessAll(init) == Success(b0);
      assert init[..n] == rows[..n];
      ProcessAllPrefix(init, n, b0);
    } else {
      assert rows[..n] == rows;
    }
  }

  /** What one verdict adds to the lists of accepted players and of errors. */
  lemma RecordAppends(b: Batch, v: Verdict)
    ensures Record(b, v).accepted == b.accepted + (if v.Accept? then [v.player] else [])
    ensures Record(b, v).errors == b.errors + (if v.Reject? then [v.reason] else [])
  {
  }

  /** Every accepted player comes from some row accepted with it. */
  lemma {:induction false} AcceptedHasRow(rows: seq<Row>, b: Batch, p: Player)
    requires ProcessAll(rows) == Success(b)
    requires p in b.accepted
    ensures exists i :: 0 <= i < |rows| && ProcessRow(rows[i]) == Success(Accept(p))
  {
    var init := rows[..|rows| - 1];
    var last := |rows| - 1;
    var b0 :| ProcessAll(init) == Success(b0);
    var v := ProcessRow(rows[last]).value;
    assert b == Record(b0, v);
    RecordAppends(b0, v);
    if p in b0.accepted {
      AcceptedHasRow(init, b0, p);
      var i :| 0 <= i < |init| && ProcessRow(init[i]) == Success(Accept(p));
      assert init[i] == rows[i];
    } else {
      assert ProcessRow(rows[last]) == Success(Accept(p));
    }
  }

  /** The player of an accepted last row is in the batch. */
  lemma LastRowKept(rows: seq<Row>, p: Player)
    requires rows != [] && ProcessAll(rows).Success?
    requires ProcessRow(rows[|rows| - 1]) == Success(Accept(p))
    ensures p in ProcessAll(rows).value.accepted
  {
    var b0 := ProcessAll(rows[..|rows| - 1]).value;
    RecordAppends(b0, Accept(p));
    assert ProcessAll(rows).value == Record(b0, Accept(p));
  }

  /** The player of every accepted row is in the batch. */
  lemma AcceptedRowKept(rows: seq<Row>, b: Batch, i: nat, p: Player)
    requires ProcessAll(rows) == Success(b)
    requires i < |rows| && ProcessRow(rows[i]) == Success(Accept(p))
    ensures p in b.accepted
  {
    var upTo := rows[..i + 1];
    assert upTo[|upTo| - 1] == rows[i];
    ProcessAllPrefix(rows, i + 1, b);
    LastRowKept(upTo, p);
  }

  /**
   * The accepted players are exactly those of the accepted rows: each comes
   * from some row, and each accepted row's player is in the batch.
   */
  lemma ProcessAllAccepted(rows: seq<Row>, b: Batch)
    requires ProcessAll(rows) == Success(b)
    ensures forall p :: p in b.accepted <==> exists i :: 0 <= i < |rows| && ProcessRow(rows[i]) == Success(Accept(p))
  {
    forall p | p in b.accepted ensures exists i :: 0 <= i < |rows| && ProcessRow(rows[i]) == Success(Accept(p)) {
      AcceptedHasRow(rows, b, p);
    }
    forall p, i | 0 <= i < |rows| && ProcessRow(rows[i]) == Success(Accept(p)) ensures p in b.accepted {
      AcceptedRowKept(rows, b, i, p);
    }
  }

  /** The errors are exactly the rejections of the rejected rows. */
  lemma {:induction false} ProcessAllRejected(rows: seq<Row>, b: Batch)
    requires ProcessAll(rows) == Success(b)
    ensures forall r :: r in b.errors <==> exists i :: 0 <= i < |rows| && ProcessRow(rows[i]) == Success(Reject(r))
  {
    if rows != [] {
      var init := rows[..|rows| - 1];
      var last := |rows| - 1;
      var b0 :| ProcessAll(init) == Success(b0);
      ProcessAllRejected(init, b0);
      var v := ProcessRow(rows[last]).value;
      assert b == Record(b0, v);
      RecordAppends(b0, v);
      forall r | r in b.errors ensures exists i :: 0 <= i < |rows| && ProcessRow(rows[i]) == Success(Reject(r)) {
        if r in b0.errors {
          var i :| 0 <= i < |init| && ProcessRow(init[i]) == Success(Reject(r));
          assert init[i] == rows[i];
        } else {
          assert ProcessRow(rows[last]) == Success(Reject(r));
        }
      }
      forall r, i | 0 <= i < |rows| && ProcessRow(rows[i]) == Success(Reject(r)) ensures r in b.errors {
        if i < last {
          assert init[i] == rows[i];
        }
      }
    }
  }

  /** Every accepted player has `totalEntries >= 0` and at most 40 entries. */
  lemma AcceptedWellFormed(rows: seq<Row>, b: Batch)
    requires ProcessAll(rows) == Success(b)
    ensures forall p :: p in b.accepted ==> p.totalEntries >= 0 && |p.entries| <= SlotCount
  {
    ProcessAllAccepted(rows, b);
    forall p | p in b.accepted ensures p.totalEntries >= 0 && |p.entries| <= SlotCount {
      var i :| 0 <= i < |rows| && ProcessRow(rows[i]) == Success(Accept(p));
      AcceptedFromRow(rows[i], p);
    }
  }

  /**
   * The short-id warnings name exactly the ids strictly between -10^8 and
   * 10^9 (those whose `str` has fewer than 10 characters); every accepted
   * player with such an id was warned about, and still imported.
   */
  lemma {:induction false} WarningsAreShortIds(rows: seq<Row>, b: Batch)
    requires ProcessAll(rows) == Success(b)
    ensures forall id :: id in b.warnings ==> -100000000 < id < 1000000000
    ensures forall p :: p in b.accepted && -100000000 < p.playerId < 1000000000 ==> p.playerId in b.warnings
  {
    if rows != [] {
      var init := rows[..|rows| - 1];
      var b0 :| ProcessAll(init) == Success(b0);
      WarningsAreShortIds(init, b0);
      forall id | id in b.warnings ensures -100000000 < id < 1000000000 {
        ShortStrIff(id);
      }
      forall p | p in b.accepted && -100000000 < p.playerId < 1000000000 ensures p.playerId in b.warnings {
        ShortStrIff(p.playerId);
      }
    }
  }

  /**
   * The body of the `for row in records` loop for one row: skip, reject
   * with the first failing check, or build the player (the slot loop may
   * end the run).
   */
  method HandleRow(row: Row) returns (r: Result<Verdict, BadPoints>)
    ensures r == ProcessRow(row)
  {
    if BlankRow(row) {
      return Success(Skip);
    }
    var rawId := Cell(row, "playerId");
    if rawId.None? || IsBlank(rawId.value) {
      return Success(Reject(MissingId));
    }
    var parsed := ParseInt(rawId.value);
    if parsed.None? {
      return Success(Reject(IdNotAnInteger(rawId.value)));
    }
    var playerId := parsed.value;
    var total := Cell(row, "totalEntries");
    var totalEntries := IntOrZero(total);
    if totalEntries.None? {
      return Success(Reject(InvalidEntry(playerId, TotalEntriesNotAnInteger(total.value))));
    }
    var entry := NewPlayerEntry(Cell(row, "playerName"), playerId, totalEntries.value);
    if entry.Failure? {
      return Success(Reject(InvalidEntry(playerId, InvalidFields(entry.error))));
    }
    var entries := BuildEntries(row);
    if entries.Failure? {
      return Failure(entries.error);
    }
    var e := entry.value;
    return Success(Accept(Player(e.playerName, e.playerId, entries.value, e.totalEntries)));
  }

  /**
   * The `for row in records` loop of `main`: appends each row's player or
   * rejection to its list and each parsed short id to the warnings.
   */
  method ProcessRecords(rows: seq<Row>) returns (r: Result<Batch, Abort>)
    ensures r == ProcessAll(rows)
  {
    var accepted: seq<Player> := [];
    var errors: seq<Rejection> := [];
    var warnings: seq<int> := [];
    var i := 0;
    while i < |rows|
      invariant 0 <= i <= |rows|
      invariant ProcessAll(rows[..i]) == Success(Batch(accepted, errors, warnings))
    {
      assert rows[..i + 1][..i] == rows[..i] && rows[..i + 1][i] == rows[i];
      var verdict := HandleRow(rows[i]);
      if verdict.Failure? {
        AbortPersists(rows, i + 1);
        return Failure(Abort(i, verdict.error));
      }
      var v := verdict.value;
      if ParsedId(v).Some? && ShortId(ParsedId(v).value) {
        warnings := warnings + [ParsedId(v).value];
      }
      match v {
        case Skip =>
        case Reject(reason) => errors := errors + [reason];
        case Accept(p) => accepted := accepted + [p];
      }
      i := i + 1;
    }
    assert rows[..i] == rows;
    return Success(Batch(accepted, errors, warnings));
  }

  // ---------------------------------------------------------------------------
  // The `tournament` collection

  /** The calls made on the collection. */
  datatype Call = DeleteAll | BulkUpsert(players: seq<Player>)

  /** Sets of distinct ids among the players. */
  function Ids(ps: seq<Player>): set<int> {
    if ps == [] then {} else Ids(ps[..|ps| - 1]) + {ps[|ps| - 1].playerId}
  }

  lemma {:induction false} IdsMembership(ps: seq<Player>, id: int)
    ensures id in Ids(ps) <==> exists j :: 0 <= j < |ps| && ps[j].playerId == id
  {
    if ps != [] {
      var init := ps[..|ps| - 1];
      IdsMembership(init, id);
      assert forall j :: 0 <= j < |init| ==> init[j] == ps[j];
    }
  }

  /** The position of the last player with the given id. */
  function LastIndex(ps: seq<Player>, id: int): (j: nat)
    requires id in Ids(ps)
    ensures j < |ps| && ps[j].playerId == id
    ensures forall k :: j < k < |ps| ==> ps[k].playerId != id
  {
    if ps[|ps| - 1].playerId == id then |ps| - 1 else LastIndex(ps[..|ps| - 1], id)
  }

  /** Applying `UpdateOne({'playerId': id}, {'$set': p}, upsert=True)` for each p, in order. */
  function Upserted(docs: map<int, Player>, ps: seq<Player>): map<int, Player> {
    if ps == [] then docs
    else Upserted(docs, ps[..|ps| - 1])[ps[|ps| - 1].playerId := ps[|ps| - 1]]
  }

  /** The collection after clearing it and upserting the batch. */
  function Snapshot(ps: seq<Player>): map<int, Player> {
    Upserted(map[], ps)
  }

  /**
   * After the upserts the collection holds the old documents plus one
   * document per distinct id of the batch, equal to the last player with
   * that id; documents of other ids are untouched.
   */
  lemma {:induction false} UpsertedContents(docs: map<int, Player>, ps: seq<Player>)
    ensures Upserted(docs, ps).Keys == docs.Keys + Ids(ps)
    ensures forall id :: id in Ids(ps) ==> Upserted(docs, ps)[id] == ps[LastIndex(ps, id)]
    ensures forall id :: id in docs && id !in Ids(ps) ==> Upserted(docs, ps)[id] == docs[id]
  {
    if ps != [] {
      UpsertedContents(docs, ps[..|ps| - 1]);
    }
  }

  /**
   * A live run leaves exactly one document per distinct accepted id, the
   * last accepted player with that id; nothing from before survives.
   */
  lemma SnapshotLastWins(ps: seq<Player>)
    ensures Snapshot(ps).Keys == Ids(ps)
    ensures forall id :: id in Ids(ps) ==> Snapshot(ps)[id] == ps[LastIndex(ps, id)]
  {
    UpsertedContents(map[], ps);
  }

  /** Upserting the same batch again onto its own snapshot changes nothing. */
  lemma UpsertIdempotent(ps: seq<Player>)
    ensures Upserted(Snapshot(ps), ps) == Snapshot(ps)
  {
    var s := Snapshot(ps);
    UpsertedContents(map[], ps);
    UpsertedContents(s, ps);
    assert Upserted(s, ps).Keys == s.Keys;
    forall id | id in s ensures Upserted(s, ps)[id] == s[id] {
    }
  }

  /** BSON stores an integer in at most 8 bytes; pymongo raises OverflowError for a wider one. */
  predicate FitsInt64(v: int) {
    -0x8000_0000_0000_0000 <= v < 0x8000_0000_0000_0000
  }

  /** Every integer of the player's document (id, total and scores) can be encoded. */
  predicate Encodable(p: Player) {
    && FitsInt64(p.playerId)
    && FitsInt64(p.totalEntries)
    && forall e :: e in p.entries ==> FitsInt64(e.score)
  }

  class Collection {
    /** The documents, keyed by `playerId`. */
    var docs: map<int, Player>
    /** The write calls made so far. */
    ghost var calls: seq<Call>

    constructor (initial: map<int, Player>)
      ensures docs == initial && calls == []
    {
      docs := initial;
      calls := [];
    }

    /** `delete_many({})`. */
    method DeleteMany()
      modifies this
      ensures docs == map[]
      ensures calls == old(calls) + [DeleteAll]
    {
      docs := map[];
      calls := calls + [DeleteAll];
    }

    /**
     * An ordered `bulk_write` of upserts keyed by `playerId` (pymongo refuses
     * an empty list). The requests are encoded before they are sent: an
     * integer wider than 8 bytes raises OverflowError and nothing is written.
     */
    method BulkWrite(players: seq<Player>) returns (encoded: bool)
      requires players != []
      modifies this
      ensures encoded <==> forall p :: p in players ==> Encodable(p)
      ensures encoded ==> docs == Upserted(old(docs), players) && calls == old(calls) + [BulkUpsert(players)]
      ensures !encoded ==> docs == old(docs) && calls == old(calls)
    {
      encoded := forall p :: p in players ==> Encodable(p);
      if !encoded {
        return;
      }
      var i := 0;
      while i < |players|
        invariant 0 <= i <= |players|
        invariant docs == Upserted(old(docs), players[..i])
        invariant calls == old(calls)
      {
        assert players[..i + 1][..i] == players[..i];
        docs := docs[players[i].playerId := players[i]];
        i := i + 1;
      }
      assert players[..i] == players;
      calls := calls + [BulkUpsert(players)];
    }
  }

  // ---------------------------------------------------------------------------
  // Dry-run preview

  function Min(a: int, b: int): int {
    if a < b then a else b
  }

  /** The entries' group names, in entry order. */
  function GroupNames(es: seq<Entry>): seq<string> {
    if es == [] then [] else GroupNames(es[..|es| - 1]) + [es[|es| - 1].groupName]
  }

  /** One group name per entry, in entry order. */
  lemma {:induction false} GroupNamesAt(es: seq<Entry>)
    ensures |GroupNames(es)| == |es|
    ensures forall i :: 0 <= i < |es| ==> GroupNames(es)[i] == es[i].groupName
  {
    if es != [] {
      var init := es[..|es| - 1];
      GroupNamesAt(init);
      assert forall i :: 0 <= i < |init| ==> init[i] == es[i];
    }
  }

  /** The first three group names, joined by ", ". */
  function ExampleGroups(es: seq<Entry>): string {
    Join(", ", GroupNames(es[..Min(3, |es|)]))
  }

  const PreviewHeader: string := "[DRY-RUN] Preview of first entries:"

  /** One preview line (colour codes omitted). */
  function PreviewLine(p: Player): string {
    Join("", ["- ", p.playerName, " (ID: ", Str(p.playerId), "), Total Entries: ", Str(p.totalEntries),
              ", Example Groups: ", ExampleGroups(p.entries)])
  }

  /** The preview lines of the first n players, in order. */
  function PreviewLines(players: seq<Player>, n: nat): seq<string>
    requires n <= |players|
  {
    if n == 0 then [] else PreviewLines(players, n - 1) + [PreviewLine(players[n - 1])]
  }

  /** What `display_preview` prints: the header, then the lines of the first three players. */
  function Preview(players: seq<Player>): seq<string> {
    [PreviewHeader] + PreviewLines(players, Min(3, |players|))
  }

  lemma {:induction false} PreviewLinesAt(players: seq<Player>, n: nat)
    requires n <= |players|
    ensures |PreviewLines(players, n)| == n
    ensures forall k :: 0 <= k < n ==> PreviewLines(players, n)[k] == PreviewLine(players[k])
  {
    if n > 0 {
      PreviewLinesAt(players, n - 1);
    }
  }

  /**
   * The preview is the header followed by exactly one line for each of the
   * first three players (fewer when there are fewer players), in order.
   */
  lemma PreviewShape(players: seq<Player>)
    ensures |Preview(players)| == 1 + Min(3, |players|) && Preview(players)[0] == PreviewHeader
    ensures forall k :: 0 <= k < Min(3, |players|) ==> Preview(players)[k + 1] == PreviewLine(players[k])
  {
    PreviewLinesAt(players, Min(3, |players|));
  }

  /** `display_preview`: prints the header, then one line per player among the first three. */
  method DisplayPreview(players: seq<Player>) returns (lines: seq<string>)
    ensures lines == Preview(players)
  {
    lines := [PreviewHeader];
    var k := 0;
    while k < Min(3, |players|)
      invariant 0 <= k <= Min(3, |players|)
      invariant lines == [PreviewHeader] + PreviewLines(players, k)
    {
      lines := lines + [PreviewLine(players[k])];
      k := k + 1;
    }
  }

  // ---------------------------------------------------------------------------
  // `main`

  datatype RunOutcome =
    | ConfigError(message: string)          // check_env_vars raised
    | StoreUnavailable                      // the connectivity check failed
    | Crashed(abort: Abort)                 // a malformed points cell ended the run
    | Previewed(batch: Batch, preview: seq<string>)
    | Replaced(batch: Batch)
    | Overflowed(batch: Batch)              // bulk_write raised OverflowError after the clear

  /**
   * `main(dry_run)`: check the environment, connect, process the records,
   * then preview (dry run) or clear the collection and upsert the accepted
   * players. Only a live run touches the collection; when some accepted
   * integer does not fit in 8 bytes, the OverflowError of `bulk_write` is not
   * a PyMongoError and escapes `main`, leaving the collection cleared.
   */
  method Run(store: Collection, env: Config.Env, reachable: bool, rows: seq<Row>, dryRun: bool)
    returns (o: RunOutcome)
    modifies store
    ensures o.ConfigError? <==> Config.CheckEnvVars(env).Fail?
    ensures o.ConfigError? ==> o.message == Config.CheckEnvVars(env).error
    ensures o.StoreUnavailable? <==> Config.CheckEnvVars(env).Pass? && !reachable
    ensures o.Crashed? <==> Config.CheckEnvVars(env).Pass? && reachable && ProcessAll(rows).Failure?
    ensures o.Crashed? ==> ProcessAll(rows) == Failure(o.abort)
    ensures o.Previewed? || o.Replaced? || o.Overflowed? ==> ProcessAll(rows) == Success(o.batch)
    ensures o.Previewed? <==> Config.CheckEnvVars(env).Pass? && reachable && ProcessAll(rows).Success? && dryRun
    ensures o.Previewed? ==> o.preview == Preview(o.batch.accepted)
    ensures o.Replaced? <==>
      && Config.CheckEnvVars(env).Pass? && reachable && ProcessAll(rows).Success? && !dryRun
      && (forall p :: p in ProcessAll(rows).value.accepted ==> Encodable(p))
    ensures o.Replaced? ==>
      && store.docs == Snapshot(o.batch.accepted)
      && store.calls == old(store.calls) + [DeleteAll]
           + (if o.batch.accepted == [] then [] else [BulkUpsert(o.batch.accepted)])
    ensures o.Overflowed? <==>
      && Config.CheckEnvVars(env).Pass? && reachable && ProcessAll(rows).Success? && !dryRun
      && (exists p :: p in ProcessAll(rows).value.accepted && !Encodable(p))
    ensures o.Overflowed? ==> store.docs == map[] && store.calls == old(store.calls) + [DeleteAll]
    ensures !o.Replaced? && !o.Overflowed? ==> store.docs == old(store.docs) && store.calls == old(store.calls)
  {
    var check := Config.CheckEnvVars(env);
    if check.Fail? {
      return ConfigError(check.error);
    }
    if !reachable {
      return StoreUnavailable;
    }
    var processed := ProcessRecords(rows);
    if processed.Failure? {
      return Crashed(processed.error);
    }
    var batch := processed.value;
    if dryRun {
      var lines := DisplayPreview(batch.accepted);
      return Previewed(batch, lines);
    }
    store.DeleteMany();
    if batch.accepted != [] {
      var encoded := store.BulkWrite(batch.accepted);
      if !encoded {
        return Overflowed(batch);
      }
    }
    return Replaced(batch);
  }

  // ---------------------------------------------------------------------------
  // `validate_entry`

  /** A Python value as found in a dict passed to `validate_entry`. */
  datatype Value = VNone | VStr(s: string) | VInt(i: int) | VBool(b: bool) | VOther

  /** Which check of `validate_entry` failed, with the offending value. */
  datatype InvalidInput = InvalidPlayerName(v: Value) | InvalidPlayerId(v: Value) | InvalidTotalEntries(v: Value)

  function Get(d: map<string, Value>, key: string): Value {
    if key in d then d[key] else VNone
  }

  /** `isinstance(v, str) and v.strip()`. */
  predicate NameOk(v: Value) {
    v.VStr? && !IsBlank(v.s)
  }

  /** `isinstance(v, (str, int))`; a bool is an int in Python. */
  predicate IdOk(v: Value) {
    v.VStr? || v.VInt? || v.VBool?
  }

  /** `isinstance(v, int) and v >= 0`; True and False are the ints 1 and 0. */
  predicate TotalOk(v: Value) {
    (v.VInt? && v.i >= 0) || v.VBool?
  }

  /**
   * `validate_entry`: checks the name, then the id, then `totalEntries`,
   * and reports the first failing check with its value.
   */
  function ValidateEntry(d: map<string, Value>): (r: Outcome<InvalidInput>)
    ensures r.Pass? <==> NameOk(Get(d, "playerName")) && IdOk(Get(d, "playerId")) && TotalOk(Get(d, "totalEntries"))
    ensures r == Fail(InvalidPlayerName(Get(d, "playerName"))) <==> !NameOk(Get(d, "playerName"))
    ensures r == Fail(InvalidPlayerId(Get(d, "playerId"))) <==> NameOk(Get(d, "playerName")) && !IdOk(Get(d, "playerId"))
    ensures r == Fail(InvalidTotalEntries(Get(d, "totalEntries"))) <==>
      NameOk(Get(d, "playerName")) && IdOk(Get(d, "playerId")) && !TotalOk(Get(d, "totalEntries"))
  {
    var name, id, total := Get(d, "playerName"), Get(d, "playerId"), Get(d, "totalEntries");
    if !NameOk(name) then Fail(InvalidPlayerName(name))
    else if !IdOk(id) then Fail(InvalidPlayerId(id))
    else if !TotalOk(total) then Fail(InvalidTotalEntries(total))
    else Pass
  }

  /** The player as the dict `main` builds for it. */
  function AsDict(p: Player): map<string, Value> {
    map["playerName" := VStr(p.playerName), "playerId" := VInt(p.playerId),
        "entries" := VOther, "totalEntries" := VInt(p.totalEntries)]
  }

  /**
   * `validate_entry` would pass an accepted player exactly when its name is
   * not blank: the uploader's own checks let blank names through.
   */
  lemma ValidateAccepted(row: Row, p: Player)
    requires ProcessRow(row) == Success(Accept(p))
    ensures ValidateEntry(AsDict(p)).Pass? <==> !IsBlank(p.playerName)
    ensures IsBlank(p.playerName) ==> ValidateEntry(AsDict(p)) == Fail(InvalidPlayerName(VStr(p.playerName)))
  {
    AcceptedFromRow(row, p);
    var d := AsDict(p);
    assert Get(d, "playerName") == VStr(p.playerName);
    assert Get(d, "playerId") == VInt(p.playerId);
    assert Get(d, "totalEntries") == VInt(p.totalEntries);
  }

  /** A row whose id is not an integer is rejected and adds no player. */
  lemma NonIntegerIdScenario()
    ensures ProcessRow(map["playerName" := "Bob", "playerId" := "abc"]) == Success(Reject(IdNotAnInteger("abc")))
  {
    var row := map["playerName" := "Bob", "playerId" := "abc"];
    assert row["playerId"][0] == 'a';
    assert !IsSpace('a') && !IsSpace('c');
    assert Strip("abc") == "abc" && IntStrip("abc") == "abc";
    assert !IsDigit("abc"[0]);
  }

  /**
   * An id cell whose only extra character is the ASCII separator U+001C is
   * not blank for `str.strip()`, but int() refuses it: the row is rejected as
   * not a valid integer.
   */
  lemma SeparatorIdScenario()
    ensures ProcessRow(map["playerName" := "Bob", "playerId" := "\U{1C}5"]) == Success(Reject(IdNotAnInteger("\U{1C}5")))
  {
    SeparatorNotSkipped();
  }
}
