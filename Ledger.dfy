/** The per-group ledger sheets: `isPostAlreadySent`, `markPostAsSent` and
    `ensureAllPublishedSheetsExist`.

    The spreadsheet is a map from sheet name to its rows, read back as
    `getDataRange().getValues()` would return them; row 0 is the header. */
module Ledger {
  import opened Wrappers
  import opened Bindings
  import opened SheetNames

  datatype Cell = Str(s: string) | Num(n: int)

  type Row = seq<Cell>

  type Sheets = map<string, seq<Row>>

  /** The six-column header a new ledger sheet gets. */
  const Header: Row := [Str("VK Post ID"), Str("TG Message ID"), Str("Timestamp"),
                        Str("Text Length"), Str("Attachments"), Str("Status")]

  /** What the caller knows about a send; 0 stands for a missing value. */
  datatype PostMeta = PostMeta(messageId: int, textLength: int, attachmentCount: int)

  /** The row appended for a sent post; a missing message id is written
      as the empty string. */
  function SentRow(id: int, meta: PostMeta, timestamp: string): Row
  {
    [Num(id), if meta.messageId != 0 then Num(meta.messageId) else Str(""), Str(timestamp),
     Num(meta.textLength), Num(meta.attachmentCount), Str("sent")]
  }

  /** The first column of a row holds the post id. */
  predicate RowHolds(row: Row, id: int)
  {
    |row| > 0 && row[0] == Num(id)
  }

  /** The answer of `isPostAlreadySent`: some row after the header holds the
      id; a blank name, a zero id or a missing sheet answer false. */
  predicate Recorded(sheets: Sheets, name: string, id: int)
  {
    && name != "" && id != 0 && name in sheets
    && exists i :: 1 <= i < |sheets[name]| && RowHolds(sheets[name][i], id)
  }

  /** The ledger after `markPostAsSent`: the sheet is created with its
      header when missing, and one row is appended to it. */
  function Marked(sheets: Sheets, name: string, id: int, meta: PostMeta, timestamp: string): Sheets
  {
    if name == "" || id == 0 then sheets
    else
      var rows := if name in sheets then sheets[name] else [Header];
      sheets[name := rows + [SentRow(id, meta, timestamp)]]
  }

  /** The sheet names of the bindings whose URL yields one. */
  function NamesOf(bs: seq<Binding>): set<string>
  {
    if bs == [] then {}
    else
      NamesOf(bs[..|bs| - 1]) + NameSet(bs[|bs| - 1])
  }

  /** The sheet name of one binding, if its URL yields one. */
  function NameSet(b: Binding): set<string>
  {
    var n := ExtractSheetName(GroupUrlOf(b));
    if n.Some? then {n.value} else {}
  }

  /** The ledger once every name has a sheet; a new sheet holds only the
      header. */
  function WithSheets(sheets: Sheets, names: set<string>): Sheets
  {
    map k | k in sheets.Keys + names :: if k in sheets then sheets[k] else [Header]
  }

  /** The result object of `ensureAllPublishedSheetsExist`. */
  datatype EnsureReport = EnsureReport(total: int, created: int)

  class Workbook {
    var sheets: Sheets

    constructor(initial: Sheets)
      ensures sheets == initial
    {
      sheets := initial;
    }

    /** The scan over rows 1.. for the id in column 0. */
    method IsPostAlreadySent(name: string, id: int) returns (b: bool)
      ensures b == Recorded(sheets, name, id)
    {
      if name == "" || id == 0 || name !in sheets {
        return false;
      }
      var data := sheets[name];
      var i := 1;
      while i < |data|
        invariant 1 <= i
        invariant forall k :: 1 <= k < i && k < |data| ==> !RowHolds(data[k], id)
      {
        if |data[i]| > 0 && data[i][0] == Num(id) {
          return true;
        }
        i := i + 1;
      }
      return false;
    }

    /** `timestamp` is the time `markPostAsSent` formats from `new Date()` as
        `dd.MM.yyyy, HH:mm`. */
    method MarkPostAsSent(name: string, id: int, meta: PostMeta, timestamp: string)
      modifies this
      ensures sheets == Marked(old(sheets), name, id, meta, timestamp)
    {
      if name == "" || id == 0 {
        return;
      }
      if name !in sheets {
        sheets := sheets[name := [Header]];
      }
      sheets := sheets[name := sheets[name] + [SentRow(id, meta, timestamp)]];
    }

    /** The loop over the bindings that creates each missing sheet and
        counts the sheets it creates. */
    method EnsureAllPublishedSheetsExist(bindings: Result<seq<Binding>, string>)
      returns (r: Result<EnsureReport, string>)
      modifies this
      ensures bindings.Failure? ==> r == Failure(bindings.error) && sheets == old(sheets)
      ensures bindings.Success? ==>
        && sheets == Ensured(old(sheets), bindings.value)
        && r == Success(EnsureReport(|bindings.value|, |sheets| - |old(sheets)|))
    {
      if bindings.Failure? {
        return Failure(bindings.error);
      }
      var bs := bindings.value;
      ghost var s0 := sheets;
      var created := 0;
      var i := 0;
      while i < |bs|
        invariant 0 <= i <= |bs|
        invariant sheets == Ensured(s0, bs[..i])
        invariant created == |sheets| - |s0|
      {
        EnsuredSnoc(s0, bs, i);
        ghost var prev := sheets;
        var name := ExtractSheetName(GroupUrlOf(bs[i]));
        if name.Some? && name.value !in sheets {
          sheets := sheets[name.value := [Header]];
          created := created + 1;
        }
        assert sheets == EnsureStep(prev, bs[i]);
        i := i + 1;
      }
      assert bs[..i] == bs;
      return Success(EnsureReport(|bs|, created));
    }
  }

  /** One binding's turn: its sheet is created when it has a name and no
      sheet yet. */
  function EnsureStep(sheets: Sheets, b: Binding): Sheets
  {
    var n := ExtractSheetName(GroupUrlOf(b));
    if n.Some? && n.value !in sheets then sheets[n.value := [Header]] else sheets
  }

  /** The ledger after the bindings have had their turns in order. */
  function Ensured(sheets: Sheets, bs: seq<Binding>): Sheets
  {
    if bs == [] then sheets else EnsureStep(Ensured(sheets, bs[..|bs| - 1]), bs[|bs| - 1])
  }

  lemma EnsuredSnoc(sheets: Sheets, bs: seq<Binding>, i: nat)
    requires i < |bs|
    ensures Ensured(sheets, bs[..i + 1]) == EnsureStep(Ensured(sheets, bs[..i]), bs[i])
  {
    assert bs[..i + 1][..i] == bs[..i];
    assert bs[..i + 1][i] == bs[i];
  }

  /** The turns create exactly the sheets the bindings name and lack. */
  lemma {:induction false} EnsuredIsWithSheets(sheets: Sheets, bs: seq<Binding>)
    ensures Ensured(sheets, bs) == WithSheets(sheets, NamesOf(bs))
  {
    if bs == [] {
      assert WithSheets(sheets, {}) == sheets;
    } else {
      var init := bs[..|bs| - 1];
      EnsuredIsWithSheets(sheets, init);
      var n := ExtractSheetName(GroupUrlOf(bs[|bs| - 1]));
      if n.Some? {
        AddName(sheets, NamesOf(init), n.value);
      }
    }
  }

  /** One more name: its sheet is created exactly when it had none, and
      then it is one more name without a sheet of its own. */
  lemma AddName(sheets: Sheets, names: set<string>, n: string)
    ensures n in WithSheets(sheets, names) ==>
      && WithSheets(sheets, names + {n}) == WithSheets(sheets, names)
      && names + {n} - sheets.Keys == names - sheets.Keys
    ensures n !in WithSheets(sheets, names) ==>
      && WithSheets(sheets, names + {n}) == WithSheets(sheets, names)[n := [Header]]
      && names + {n} - sheets.Keys == (names - sheets.Keys) + {n}
      && n !in names - sheets.Keys
  {
  }

  // ---------------------------------------------------------------------
  // Marking a post.

  /** After marking, the post is recorded, as long as the sheet was missing
      or had its header row. */
  lemma MarkThenRecorded(sheets: Sheets, name: string, id: int, meta: PostMeta, ts: string)
    requires name != "" && id != 0
    requires name !in sheets || |sheets[name]| > 0
    ensures Recorded(Marked(sheets, name, id, meta, ts), name, id)
  {
    var rows := Marked(sheets, name, id, meta, ts)[name];
    assert RowHolds(rows[|rows| - 1], id);
  }

  /** On a sheet that exists but is empty the appended row becomes row 0,
      which the row scan of `isPostAlreadySent` skips as the header: the
      post is not recorded. */
  lemma MarkOnEmptySheetNotRecorded(sheets: Sheets, name: string, id: int, meta: PostMeta, ts: string)
    requires name != "" && id != 0
    requires name in sheets && sheets[name] == []
    ensures !Recorded(Marked(sheets, name, id, meta, ts), name, id)
  {
    assert |Marked(sheets, name, id, meta, ts)[name]| == 1;
  }

  /** Marking appends one row (after a new header) to the named sheet and
      leaves every other sheet and every earlier row as it was; a blank name
      or a zero id changes nothing. */
  lemma MarkFrame(sheets: Sheets, name: string, id: int, meta: PostMeta, ts: string)
    ensures var m := Marked(sheets, name, id, meta, ts);
      && (name == "" || id == 0 ==> m == sheets)
      && (name != "" && id != 0 ==>
            && m.Keys == sheets.Keys + {name}
            && (forall k :: k in sheets && k != name ==> m[k] == sheets[k])
            && m[name] == (if name in sheets then sheets[name] else [Header]) + [SentRow(id, meta, ts)])
  {
  }

  /** What was recorded stays recorded. */
  lemma MarkKeepsRecords(sheets: Sheets, name: string, id: int, meta: PostMeta, ts: string, other: string, oid: int)
    requires Recorded(sheets, other, oid)
    ensures Recorded(Marked(sheets, name, id, meta, ts), other, oid)
  {
    var m := Marked(sheets, name, id, meta, ts);
    var i :| 1 <= i < |sheets[other]| && RowHolds(sheets[other][i], oid);
    assert m[other][i] == sheets[other][i];
  }

  /** Marking a post with another id never makes `id` recorded. */
  lemma MarkOtherNotRecorded(sheets: Sheets, name: string, i: int, meta: PostMeta, ts: string, other: string, id: int)
    requires i != id && !Recorded(sheets, other, id)
    ensures !Recorded(Marked(sheets, name, i, meta, ts), other, id)
  {
  }

  // ---------------------------------------------------------------------
  // Creating the sheets.

  /** Only missing sheets are created, each with just the header, and no
      existing sheet is touched. */
  lemma WithSheetsFrame(sheets: Sheets, names: set<string>)
    ensures var w := WithSheets(sheets, names);
      && w.Keys == sheets.Keys + names
      && (forall k :: k in sheets ==> w[k] == sheets[k])
      && (forall k :: k in names && k !in sheets ==> w[k] == [Header])
  {
  }

  /** A second run changes nothing and so creates no sheet. */
  lemma WithSheetsIdempotent(sheets: Sheets, names: set<string>)
    ensures WithSheets(WithSheets(sheets, names), names) == WithSheets(sheets, names)
  {
    var w := WithSheets(sheets, names);
    assert w.Keys + names == w.Keys;
    assert WithSheets(w, names) == w;
  }

  /** The number of sheets created is the number of names that had none. */
  lemma CreatedCount(sheets: Sheets, names: set<string>)
    ensures |WithSheets(sheets, names)| - |sheets| == |names - sheets.Keys|
  {
    var w := WithSheets(sheets, names);
    assert w.Keys == sheets.Keys + (names - sheets.Keys);
    assert sheets.Keys !! (names - sheets.Keys);
    assert |w| == |w.Keys| && |sheets| == |sheets.Keys|;
  }

  /** Running the creation loop a second time changes nothing and reports
      no sheet created. */
  lemma EnsureTwice(sheets: Sheets, bs: seq<Binding>)
    ensures Ensured(Ensured(sheets, bs), bs) == Ensured(sheets, bs)
    ensures |Ensured(Ensured(sheets, bs), bs)| - |Ensured(sheets, bs)| == 0
  {
    EnsuredIsWithSheets(sheets, bs);
    EnsuredIsWithSheets(Ensured(sheets, bs), bs);
    WithSheetsIdempotent(sheets, NamesOf(bs));
  }

  /** Every binding with a sheet name has its sheet afterwards. */
  lemma {:induction false} NamesOfSpec(bs: seq<Binding>)
    ensures forall n :: n in NamesOf(bs) <==>
      exists b :: b in bs && ExtractSheetName(GroupUrlOf(b)) == Some(n)
  {
    if bs != [] {
      var init := bs[..|bs| - 1];
      NamesOfSpec(init);
      assert forall b :: b in bs <==> b in init || b == bs[|bs| - 1];
    }
  }
}
