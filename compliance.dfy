/** The Do-Not-Call and calling-hours rules of
    `app/api/v1/endpoints/compliance.py`.  The CSV file reaches the model
    already split into rows, and the time of day already parsed; file
    decoding, CSV parsing and `time.fromisoformat` stay outside. */
module Compliance {
  import opened Wrappers
  import opened ContactModel
  import opened UserModel

  /** `DNCAdd.reason` default. */
  const DefaultReason := "Customer request"
  /** Reason given to rows of an upload that have no `reason` column. */
  const UploadReason := "Uploaded from CSV"

  // ---------------------------------------------------------------- strip

  /** The characters Python's `str.strip()` removes, restricted to ASCII. */
  predicate IsSpace(c: char) {
    c == ' ' || 9 <= c as int <= 13 || 28 <= c as int <= 31
  }

  /** The string without its leading spaces. */
  function StripStart(s: string): (r: string)
    ensures |r| <= |s|
  {
    if s != [] && IsSpace(s[0]) then StripStart(s[1..]) else s
  }

  /** The string without its trailing spaces. */
  function StripEnd(s: string): (r: string)
    ensures |r| <= |s|
  {
    if s != [] && IsSpace(s[|s| - 1]) then StripEnd(s[..|s| - 1]) else s
  }

  /** `str.strip()`: the string without its leading and trailing spaces. */
  function Strip(s: string): (r: string)
    ensures |r| <= |s|
  {
    StripEnd(StripStart(s))
  }

  /** `StripStart` keeps a suffix that does not start with space and drops
      only spaces. */
  lemma {:induction false} StripStartDrops(s: string)
    ensures var r := StripStart(s);
      && r == s[|s| - |r|..]
      && (r != [] ==> !IsSpace(r[0]))
      && (forall k :: 0 <= k < |s| - |r| ==> IsSpace(s[k]))
  {
    if s != [] && IsSpace(s[0]) {
      StripStartDrops(s[1..]);
    }
  }

  /** `StripEnd` keeps a prefix that does not end with space and drops only
      spaces. */
  lemma {:induction false} StripEndDrops(s: string)
    ensures var r := StripEnd(s);
      && r == s[..|r|]
      && (r != [] ==> !IsSpace(r[|r| - 1]))
      && (forall k :: |r| <= k < |s| ==> IsSpace(s[k]))
  {
    if s != [] && IsSpace(s[|s| - 1]) {
      StripEndDrops(s[..|s| - 1]);
    }
  }

  /** What `strip()` removes is all space, at the two ends only, and what it
      keeps neither starts nor ends with space. */
  lemma {:induction false} StripTrims(s: string)
    ensures var r := Strip(s); var a := |s| - |StripStart(s)|;
      && (r != [] ==> !IsSpace(r[0]) && !IsSpace(r[|r| - 1]))
      && a + |r| <= |s| && r == s[a..a + |r|]
      && (forall k :: 0 <= k < a ==> IsSpace(s[k]))
      && (forall k :: a + |r| <= k < |s| ==> IsSpace(s[k]))
  {
    var t := StripStart(s);
    StripStartDrops(s);
    StripEndDrops(t);
    var r := Strip(s);
    var a := |s| - |t|;
    forall k | a + |r| <= k < |s|
      ensures IsSpace(s[k])
    {
      assert s[k] == t[k - a];
    }
    if r != [] {
      assert r[0] == t[0];
    }
  }

  /** Stripping twice is stripping once. */
  lemma {:induction false} StripIdempotent(s: string)
    ensures Strip(Strip(s)) == Strip(s)
  {
    StripTrims(s);
  }

  // ---------------------------------------------------------------- add / remove / check

  /** The reason of a `DNCAdd` body: the schema default when omitted. */
  function RequestedReason(reason: Option<string>): (r: string)
    ensures reason.Some? ==> r == reason.value
    ensures reason.None? ==> r == DefaultReason
  {
    if reason.Some? then reason.value else DefaultReason
  }

  /** `add_to_dnc`: a number already listed gives 400 and nothing changes;
      otherwise one entry is added with the requested reason, recorded
      against the caller. */
  method AddToDnc(table: DncTable, phone: string, reason: Option<string>, caller: User, now: int)
    returns (r: Outcome<DncEntry>)
    requires table.Valid() && caller.isActive
    modifies table
    ensures table.Valid()
    ensures Listed(old(table.rows), phone) ==>
      r == Fail(400, "Number already in DNC list") && table.rows == old(table.rows) && table.nextId == old(table.nextId)
    ensures !Listed(old(table.rows), phone) ==>
      var e := DncEntry(old(table.nextId), phone, Some(RequestedReason(reason)), caller.id, now);
      r == Ok(e) && table.rows == old(table.rows)[e.id := e] && table.nextId == old(table.nextId) + 1
    ensures Listed(table.rows, phone)
  {
    if Listed(table.rows, phone) {
      return Fail(400, "Number already in DNC list");
    }
    var e := DncEntry(table.nextId, phone, Some(RequestedReason(reason)), caller.id, now);
    table.rows := table.rows[e.id := e];
    table.nextId := table.nextId + 1;
    assert table.rows[e.id].phoneNumber == phone;
    r := Ok(e);
  }

  /** `remove_from_dnc`: an unknown id gives 404 and nothing changes;
      otherwise exactly that entry goes. */
  method RemoveFromDnc(table: DncTable, id: nat, caller: User) returns (r: Outcome<()>)
    requires table.Valid() && caller.role == Admin
    modifies table
    ensures table.Valid() && table.nextId == old(table.nextId)
    ensures id !in old(table.rows) ==> r == Fail(404, "DNC entry not found") && table.rows == old(table.rows)
    ensures id in old(table.rows) ==> r == Ok(()) && table.rows == old(table.rows) - {id}
  {
    if id !in table.rows {
      return Fail(404, "DNC entry not found");
    }
    table.rows := table.rows - {id};
    r := Ok(());
  }

  /** The answer of `check_dnc_status`. */
  datatype DncStatus = DncStatus(phoneNumber: string, isDnc: bool, reason: Option<string>, addedAt: Option<int>)

  /** `check_dnc_status`: exact comparison of the whole number. */
  function CheckDncStatus(rows: map<nat, DncEntry>, phone: string): (r: DncStatus)
    requires DncPhonesUnique(rows)
    ensures r.phoneNumber == phone
    ensures r.isDnc <==> Listed(rows, phone)
    ensures !r.isDnc ==> r.reason.None? && r.addedAt.None?
    ensures r.isDnc ==> exists k :: (k in rows && rows[k].phoneNumber == phone &&
      r.reason == rows[k].reason && r.addedAt == Some(rows[k].addedAt))
  {
    if Listed(rows, phone) then
      var k :| k in rows && rows[k].phoneNumber == phone;
      DncStatus(phone, true, rows[k].reason, Some(rows[k].addedAt))
    else DncStatus(phone, false, None, None)
  }

  /** `p` occurs in `s` as a contiguous run of characters. */
  predicate Contains(s: string, p: string) {
    exists i :: 0 <= i <= |s| && p <= s[i..]
  }

  /** PostgreSQL's `text LIKE pattern`: `%` matches any run of characters,
      `_` any one character, and a backslash (the default escape character)
      makes the character after it literal. */
  predicate Like(text: string, pattern: string)
    decreases |pattern|, |text|
  {
    if pattern == [] then text == []
    else if pattern[0] == '%' then Like(text, pattern[1..]) || (text != [] && Like(text[1..], pattern))
    else if pattern[0] == '\\' && |pattern| >= 2 then
      text != [] && text[0] == pattern[1] && Like(text[1..], pattern[2..])
    else if pattern[0] == '_' then text != [] && Like(text[1..], pattern[1..])
    else text != [] && text[0] == pattern[0] && Like(text[1..], pattern[1..])
  }

  /** The pattern SQLAlchemy's `column.contains(search)` compares with:
      the search text between two `%`, its own characters unescaped. */
  function ContainsPattern(search: string): string {
    "%" + search + "%"
  }

  /** A search text with none of LIKE's special characters. */
  predicate PlainText(p: string) {
    forall i :: 0 <= i < |p| ==> p[i] != '%' && p[i] != '_' && p[i] != '\\'
  }

  /** `get_dnc_list` before paging: with a truthy search term, the entries
      whose number matches the `LIKE` pattern built from it; otherwise all of
      them. */
  function SearchDnc(rows: map<nat, DncEntry>, search: Option<string>): (r: map<nat, DncEntry>)
    ensures forall k :: k in r ==> k in rows && r[k] == rows[k]
    ensures forall k :: k in rows ==>
      (k in r <==> !Truthy(search) || Like(rows[k].phoneNumber, ContainsPattern(search.value)))
  {
    map k | k in rows && (!Truthy(search) || Like(rows[k].phoneNumber, ContainsPattern(search.value))) :: rows[k]
  }

  /** A trailing `%` matches any rest. */
  lemma {:induction false} LikeAnyRest(t: string)
    ensures Like(t, "%")
    decreases |t|
  {
    if t != [] {
      LikeAnyRest(t[1..]);
    }
  }

  /** A leading `%` lets the rest of the pattern match any suffix. */
  lemma {:induction false} LikeLeadingPercent(t: string, q: string)
    ensures Like(t, "%" + q) <==> exists i :: 0 <= i <= |t| && Like(t[i..], q)
    decreases |t|
  {
    var pat := "%" + q;
    assert pat[0] == '%' && pat[1..] == q;
    assert t[0..] == t;
    if t == [] {
      assert Like(t, pat) <==> Like(t, q);
    } else {
      assert Like(t, pat) <==> Like(t, q) || Like(t[1..], pat);
      LikeLeadingPercent(t[1..], q);
      if Like(t[1..], pat) {
        var i :| 0 <= i <= |t[1..]| && Like(t[1..][i..], q);
        assert t[1..][i..] == t[i + 1..];
      }
      if exists i :: 0 <= i <= |t| && Like(t[i..], q) {
        var i :| 0 <= i <= |t| && Like(t[i..], q);
        if i > 0 {
          assert t[1..][i - 1..] == t[i..];
          assert Like(t[1..], pat);
        }
      }
    }
  }

  /** A plain prefix of the pattern must be matched character by character. */
  lemma {:induction false} LikePlainPrefix(t: string, p: string, rest: string)
    requires PlainText(p)
    ensures Like(t, p + rest) <==> p <= t && Like(t[|p|..], rest)
    decreases |p|
  {
    if p != [] {
      var pat := p + rest;
      assert pat[0] == p[0] && pat[1..] == p[1..] + rest;
      assert Like(t, pat) <==> t != [] && t[0] == p[0] && Like(t[1..], p[1..] + rest);
      if t != [] {
        LikePlainPrefix(t[1..], p[1..], rest);
        assert p <= t <==> t[0] == p[0] && p[1..] <= t[1..];
        if |p| <= |t| {
          assert t[1..][|p| - 1..] == t[|p|..];
        }
      }
    } else {
      assert p + rest == rest;
    }
  }

  /** For a search text without special characters the `LIKE` pattern is a
      plain substring test. */
  lemma {:induction false} PlainSearchIsSubstring(number: string, search: string)
    requires PlainText(search)
    ensures Like(number, ContainsPattern(search)) <==> Contains(number, search)
  {
    assert ContainsPattern(search) == "%" + (search + "%");
    LikeLeadingPercent(number, search + "%");
    if Like(number, ContainsPattern(search)) {
      var i :| 0 <= i <= |number| && Like(number[i..], search + "%");
      LikePlainPrefix(number[i..], search, "%");
    }
    if Contains(number, search) {
      var i :| 0 <= i <= |number| && search <= number[i..];
      LikePlainPrefix(number[i..], search, "%");
      LikeAnyRest(number[i..][|search|..]);
    }
  }

  /** Text without a backslash matches itself as a pattern: `%` and `_` in
      it match their own character. */
  lemma {:induction false} LikeItself(p: string, t: string, rest: string)
    requires forall i :: 0 <= i < |p| ==> p[i] != '\\'
    requires Like(t, rest)
    ensures Like(p + t, p + rest)
    decreases |p|
  {
    if p != [] {
      var text, pat := p + t, p + rest;
      assert text[0] == p[0] && text[1..] == p[1..] + t;
      assert pat[0] == p[0] && pat[1..] == p[1..] + rest;
      LikeItself(p[1..], t, rest);
      if p[0] == '%' {
        assert Like(text[1..], pat[1..]);
        assert text[1..][0..] == text[1..];
        LikeLeadingPercent(text[1..], pat[1..]);
        assert "%" + pat[1..] == pat;
      }
    } else {
      assert p + t == t && p + rest == rest;
    }
  }

  /** Every listed number without a backslash is found when searching for
      itself. */
  lemma ListedIsFound(rows: map<nat, DncEntry>, phone: string)
    requires phone != "" && (forall i :: 0 <= i < |phone| ==> phone[i] != '\\') && Listed(rows, phone)
    ensures exists k :: k in SearchDnc(rows, Some(phone)) && SearchDnc(rows, Some(phone))[k].phoneNumber == phone
  {
    var k :| k in rows && rows[k].phoneNumber == phone;
    LikeAnyRest("");
    LikeItself(phone, "", "%");
    assert phone + "" == phone;
    assert ContainsPattern(phone) == "%" + (phone + "%");
    assert Like(phone, ContainsPattern(phone));
    assert k in SearchDnc(rows, Some(phone));
  }

  /** A backslash escapes the character after it, so a listed number that
      contains one is not found by searching for itself. */
  lemma BackslashNumberIsNotFound()
    ensures var rows := map[0 := DncEntry(0, "\\", Some(DefaultReason), 1, 0)];
      Listed(rows, "\\") && SearchDnc(rows, Some("\\")) == map[]
  {
    var rows := map[0 := DncEntry(0, "\\", Some(DefaultReason), 1, 0)];
    assert ContainsPattern("\\") == ['%', '\\', '%'];
    assert !Like("", ['\\', '%']);
    assert !Like([], ['%', '\\', '%']);
    assert !Like("\\", ['\\', '%']);
    assert !Like("\\", ['%', '\\', '%']);
    assert rows[0].phoneNumber == "\\";
  }

  /** The search matches part of a number where the status check needs the
      whole: a listed `+15551234567` is found by searching `555`, while
      `555` itself is not on the list. */
  lemma SearchIsLooserThanCheck()
    ensures var rows := map[0 := DncEntry(0, "+15551234567", Some(DefaultReason), 1, 0)];
      0 in SearchDnc(rows, Some("555")) && !CheckDncStatus(rows, "555").isDnc
  {
    var rows := map[0 := DncEntry(0, "+15551234567", Some(DefaultReason), 1, 0)];
    assert "555" <= "+15551234567"[2..];
    PlainSearchIsSubstring("+15551234567", "555");
    assert rows[0].phoneNumber != "555";
  }

  /** The search text is not escaped, so `_` in it matches any digit: a
      search for `5_5` lists `515`. */
  lemma UnderscoreMatchesAnyDigit()
    ensures var rows := map[0 := DncEntry(0, "515", Some(DefaultReason), 1, 0)];
      0 in SearchDnc(rows, Some("5_5")) && !Contains("515", "5_5")
  {
    LikeAnyRest("");
    assert Like("", "%");
    assert Like("5", "5%");
    assert Like("15", "_5%");
    assert Like("515", "5_5%");
    assert Like("515", ContainsPattern("5_5"));
  }

  // ---------------------------------------------------------------- CSV upload

  /** A field of a `csv.DictReader` row: the column is missing from the
      header (`get` returns its default), the row is too short to reach it
      (the value is `None`), or it holds text. */
  datatype Cell = Absent | Null | Text(s: string)

  datatype CsvRow = CsvRow(phone: Cell, reason: Cell)

  /** `str.strip()` on a `None` field raises. */
  predicate Malformed(row: CsvRow) {
    row.phone.Null? || row.reason.Null?
  }

  function CellText(c: Cell, default: string): string {
    if c.Text? then c.s else default
  }

  /** A row after the two `strip()` calls: the stripped phone and reason,
      or the exception a `None` field raises. */
  datatype Fields = Raises | Fields(phone: string, reason: string)

  function ReadRow(row: CsvRow): (f: Fields)
    ensures f.Raises? <==> Malformed(row)
  {
    if Malformed(row) then Raises
    else Fields(Strip(CellText(row.phone, "")), Strip(CellText(row.reason, UploadReason)))
  }

  function ReadRows(csv: seq<CsvRow>): (fs: seq<Fields>)
    ensures |fs| == |csv|
  {
    if csv == [] then [] else ReadRows(csv[..|csv| - 1]) + [ReadRow(csv[|csv| - 1])]
  }

  /** Reading the file row by row: the i-th result is the i-th row read. */
  lemma {:induction false} ReadRowsMeans(csv: seq<CsvRow>)
    ensures forall i :: 0 <= i < |csv| ==> ReadRows(csv)[i] == ReadRow(csv[i])
  {
    if csv != [] {
      var n := |csv| - 1;
      ReadRowsMeans(csv[..n]);
      assert forall i :: 0 <= i < n ==> csv[..n][i] == csv[i];
    }
  }

  /** No row raised. */
  predicate NoneRaised(fs: seq<Fields>) {
    fs == [] || (NoneRaised(fs[..|fs| - 1]) && fs[|fs| - 1].Fields?)
  }

  lemma {:induction false} NoneRaisedMeans(fs: seq<Fields>)
    ensures NoneRaised(fs) <==> forall i :: 0 <= i < |fs| ==> fs[i].Fields?
  {
    if fs != [] {
      var n := |fs| - 1;
      NoneRaisedMeans(fs[..n]);
      assert forall i :: 0 <= i < n ==> fs[..n][i] == fs[i];
    }
  }

  predicate HasPhone(f: Fields) {
    f.Fields? && f.phone != ""
  }

  /** Rows that the upload counts, as added or as skipped. */
  function Counted(fs: seq<Fields>): nat {
    if fs == [] then 0
    else Counted(fs[..|fs| - 1]) + (if HasPhone(fs[|fs| - 1]) then 1 else 0)
  }

  /** The upload's working state: the entries staged so far and the two
      counters, or the exception that aborts it. */
  datatype Import = Importing(rows: map<nat, DncEntry>, nextId: nat, added: nat, skipped: nat) | Crashed

  /** One pass of the loop body.  A number already staged (earlier in the
      file) or stored counts as skipped; an empty number is not counted. */
  function ImportRow(st: Import, f: Fields, caller: nat, now: int): (r: Import)
    ensures r.Crashed? <==> st.Crashed? || f.Raises?
    ensures r.Importing? ==>
      r.added + r.skipped == st.added + st.skipped + (if HasPhone(f) then 1 else 0) &&
      r.nextId == st.nextId + (r.added - st.added) && r.added >= st.added
  {
    match st
    case Crashed => Crashed
    case Importing(rows, next, added, skipped) =>
      match f
      case Raises => Crashed
      case Fields(phone, reason) =>
        if phone == "" then st
        else if Listed(rows, phone) then Importing(rows, next, added, skipped + 1)
        else Importing(rows[next := DncEntry(next, phone, Some(reason), caller, now)], next + 1, added + 1, skipped)
  }

  /** The loop over the whole file. */
  function ImportRows(rows: map<nat, DncEntry>, next: nat, fs: seq<Fields>, caller: nat, now: int): (r: Import)
    ensures r.Crashed? <==> !NoneRaised(fs)
    ensures r.Importing? ==> r.added + r.skipped == Counted(fs) && r.nextId == next + r.added
  {
    if fs == [] then Importing(rows, next, 0, 0)
    else
      var n := |fs| - 1;
      ImportRow(ImportRows(rows, next, fs[..n], caller, now), fs[n], caller, now)
  }

  /** The staged entries extend `rows`: constraints intact, ids below the
      counter, old entries untouched, new ones numbered from `next` and
      recorded against the uploader. */
  ghost predicate StagedOver(rows: map<nat, DncEntry>, next: nat, st: Import, caller: nat, now: int) {
    st.Importing? ==>
      && DncConsistent(st.rows)
      && next <= st.nextId
      && (forall k :: k in st.rows ==> k < st.nextId)
      && (forall k :: k in rows ==> k in st.rows && st.rows[k] == rows[k])
      && (forall k :: k in st.rows && k !in rows ==> next <= k && st.rows[k].addedById == caller && st.rows[k].addedAt == now)
  }

  /** One row keeps the staging invariant, lists the row's number, and
      unlists nothing. */
  lemma ImportRowStep(rows: map<nat, DncEntry>, next: nat, st: Import, f: Fields, caller: nat, now: int)
    requires StagedOver(rows, next, st, caller, now)
    ensures var r := ImportRow(st, f, caller, now);
      && StagedOver(rows, next, r, caller, now)
      && (r.Importing? && HasPhone(f) ==> Listed(r.rows, f.phone))
      && (r.Importing? ==> forall k :: k in st.rows ==> k in r.rows && r.rows[k] == st.rows[k])
  {
    var r := ImportRow(st, f, caller, now);
    if r.Importing? && HasPhone(f) && !Listed(st.rows, f.phone) {
      var e := DncEntry(st.nextId, f.phone, Some(f.reason), caller, now);
      var staged := st.rows[st.nextId := e];
      assert r == Importing(staged, st.nextId + 1, st.added + 1, st.skipped);
      assert st.nextId !in st.rows;
      assert forall k :: k in st.rows ==> st.rows[k].phoneNumber != f.phone;
      assert staged[st.nextId].phoneNumber == f.phone;
    }
  }

  /** What a successful upload leaves: the staging invariant over the old
      table, and every number of the file on the list. */
  lemma {:induction false} ImportRowsKeepsList(rows: map<nat, DncEntry>, next: nat, fs: seq<Fields>, caller: nat, now: int)
    requires DncConsistent(rows) && forall k :: k in rows ==> k < next
    ensures var r := ImportRows(rows, next, fs, caller, now);
      && StagedOver(rows, next, r, caller, now)
      && (r.Importing? ==> forall i :: 0 <= i < |fs| && HasPhone(fs[i]) ==> Listed(r.rows, fs[i].phone))
  {
    if fs != [] {
      var n := |fs| - 1;
      ImportRowsKeepsList(rows, next, fs[..n], caller, now);
      var st := ImportRows(rows, next, fs[..n], caller, now);
      ImportRowStep(rows, next, st, fs[n], caller, now);
      var r := ImportRow(st, fs[n], caller, now);
      if r.Importing? {
        forall i | 0 <= i < |fs| && HasPhone(fs[i])
          ensures Listed(r.rows, fs[i].phone)
        {
          if i < n {
            assert fs[..n][i] == fs[i];
            var k :| k in st.rows && st.rows[k].phoneNumber == fs[i].phone;
            assert r.rows[k] == st.rows[k];
          }
        }
      }
    }
  }

  /** The summary `upload_dnc_list` returns. */
  datatype UploadSummary = UploadSummary(added: nat, skipped: nat)

  predicate IsCsvName(filename: string) {
    |filename| >= 4 && filename[|filename| - 4..] == ".csv"
  }

  /** The loop of `upload_dnc_list` over the raw rows: read one row, then
      stage it. */
  function ImportCsv(rows: map<nat, DncEntry>, next: nat, csv: seq<CsvRow>, caller: nat, now: int): Import {
    if csv == [] then Importing(rows, next, 0, 0)
    else ImportRow(ImportCsv(rows, next, csv[..|csv| - 1], caller, now), ReadRow(csv[|csv| - 1]), caller, now)
  }

  /** Reading the whole file first and then staging gives the same result. */
  lemma {:induction false} ImportCsvReadsFirst(rows: map<nat, DncEntry>, next: nat, csv: seq<CsvRow>, caller: nat, now: int)
    ensures ImportCsv(rows, next, csv, caller, now) == ImportRows(rows, next, ReadRows(csv), caller, now)
  {
    if csv != [] {
      var n := |csv| - 1;
      ImportCsvReadsFirst(rows, next, csv[..n], caller, now);
      assert ReadRows(csv)[..n] == ReadRows(csv[..n]);
    }
  }

  lemma ImportCsvStep(rows: map<nat, DncEntry>, next: nat, csv: seq<CsvRow>, i: nat, caller: nat, now: int)
    requires i < |csv|
    ensures ImportCsv(rows, next, csv[..i + 1], caller, now)
         == ImportRow(ImportCsv(rows, next, csv[..i], caller, now), ReadRow(csv[i]), caller, now)
  {
    assert csv[..i + 1][..i] == csv[..i];
  }

  /** A crashed upload stays crashed whatever rows follow. */
  lemma {:induction false} ImportCsvCrashedStays(rows: map<nat, DncEntry>, next: nat, csv: seq<CsvRow>, i: nat, caller: nat, now: int)
    requires i <= |csv| && ImportCsv(rows, next, csv[..i], caller, now).Crashed?
    ensures ImportCsv(rows, next, csv, caller, now).Crashed?
    decreases |csv| - i
  {
    if i < |csv| {
      ImportCsvStep(rows, next, csv, i, caller, now);
      ImportCsvCrashedStays(rows, next, csv, i + 1, caller, now);
    } else {
      assert csv[..i] == csv;
    }
  }

  /** One pass of the loop body of `upload_dnc_list` on a row that read
      cleanly: an empty number is passed over, a listed one counts as
      skipped, and a new one is staged under the next id. */
  method StageRow(st: Import, f: Fields, caller: nat, now: int) returns (r: Import)
    requires st.Importing? && f.Fields?
    ensures r == ImportRow(st, f, caller, now)
  {
    r := st;
    if f.phone != "" {
      if Listed(st.rows, f.phone) {
        r := st.(skipped := st.skipped + 1);
      } else {
        r := Importing(st.rows[st.nextId := DncEntry(st.nextId, f.phone, Some(f.reason), caller, now)],
                       st.nextId + 1, st.added + 1, st.skipped);
      }
    }
  }

  /** The loop of `upload_dnc_list`: each row is read, stripped and staged
      in turn; the first row whose `strip()` raises stops the loop with
      `Crashed`. */
  method StageRows(rows: map<nat, DncEntry>, next: nat, csv: seq<CsvRow>, caller: nat, now: int)
    returns (st: Import)
    ensures st == ImportCsv(rows, next, csv, caller, now)
  {
    st := Importing(rows, next, 0, 0);
    var i := 0;
    while i < |csv|
      invariant 0 <= i <= |csv|
      invariant st == ImportCsv(rows, next, csv[..i], caller, now)
      invariant st.Importing?
    {
      var f := ReadRow(csv[i]);
      ImportCsvStep(rows, next, csv, i, caller, now);
      if f.Raises? {
        ImportCsvCrashedStays(rows, next, csv, i + 1, caller, now);
        return Crashed;
      }
      st := StageRow(st, f, caller, now);
      i := i + 1;
    }
    assert csv[..i] == csv;
  }

  /** The 500 detail of an upload whose row raised: the handler appends
      `str(e)`, and the only exception a decoded row raises is the
      `AttributeError` of `None.strip()`. */
  const UploadErrorDetail := "Error processing file: 'NoneType' object has no attribute 'strip'"

  /** `upload_dnc_list`.  The filename must end in `.csv` (400).  Entries are
      staged while the rows are read and committed once at the end; a row
      that makes `strip()` raise aborts the upload with 500 and stores
      nothing. */
  method UploadDncList(table: DncTable, filename: string, csv: seq<CsvRow>, caller: User, now: int)
    returns (r: Outcome<UploadSummary>)
    requires table.Valid() && caller.role == Admin
    modifies table
    ensures table.Valid()
    ensures !IsCsvName(filename) ==> r == Fail(400, "File must be a CSV")
    ensures r.Ok? <==> IsCsvName(filename) && forall i :: 0 <= i < |csv| ==> !Malformed(csv[i])
    ensures r.Ok? ==>
      var imported := ImportRows(old(table.rows), old(table.nextId), ReadRows(csv), caller.id, now);
      && imported.Importing?
      && r.value == UploadSummary(imported.added, imported.skipped)
      && table.rows == imported.rows && table.nextId == imported.nextId
    ensures IsCsvName(filename) && r.Fail? ==> r == Fail(500, UploadErrorDetail)
    ensures r.Fail? ==> table.rows == old(table.rows) && table.nextId == old(table.nextId)
  {
    if !IsCsvName(filename) {
      return Fail(400, "File must be a CSV");
    }
    var st := StageRows(table.rows, table.nextId, csv, caller.id, now);
    ImportCsvReadsFirst(table.rows, table.nextId, csv, caller.id, now);
    NoneRaisedMeans(ReadRows(csv));
    ReadRowsMeans(csv);
    ImportRowsKeepsList(table.rows, table.nextId, ReadRows(csv), caller.id, now);
    if st.Crashed? {
      return Fail(500, UploadErrorDetail);
    }
    table.rows := st.rows;
    table.nextId := st.nextId;
    r := Ok(UploadSummary(st.added, st.skipped));
  }

  // ---------------------------------------------------------------- calling hours

  /** A `datetime.time`; `offset` is its UTC offset in seconds when the text
      carried one (an offset-aware time), `None` for a naive time. */
  datatype TimeOfDay = TimeOfDay(hour: nat, minute: nat, second: nat, microsecond: nat, offset: Option<int>)

  predicate WellFormed(t: TimeOfDay) {
    t.hour < 24 && t.minute < 60 && t.second < 60 && t.microsecond < 1000000
  }

  /** `time` ordering: field by field. */
  predicate NotAfter(a: TimeOfDay, b: TimeOfDay) {
    if a.hour != b.hour then a.hour < b.hour
    else if a.minute != b.minute then a.minute < b.minute
    else if a.second != b.second then a.second < b.second
    else a.microsecond <= b.microsecond
  }

  /** Microseconds since midnight: the reference ordering. */
  function Micros(t: TimeOfDay): nat {
    ((t.hour * 60 + t.minute) * 60 + t.second) * 1000000 + t.microsecond
  }

  const WindowStart := TimeOfDay(8, 0, 0, 0, None)
  const WindowEnd := TimeOfDay(21, 0, 0, 0, None)

  /** The answer of `validate_calling_time`. */
  datatype CallingTimeVerdict = CallingTimeVerdict(phoneNumber: string, callTime: string, timezone: string,
                                                   isValid: bool, reason: string)

  /** `validate_calling_time`: `parsed` is `None` where `time.fromisoformat`
      rejects `callTime` (400).  An offset-aware time cannot be ordered
      against the naive window bounds: the `TypeError` is not the
      `ValueError` the handler catches, so the request ends in a 500.  The
      time zone is echoed, never applied. */
  function ValidateCallingTime(phone: string, callTime: string, parsed: Option<TimeOfDay>, timezone: string)
    : (r: Outcome<CallingTimeVerdict>)
    ensures parsed.None? <==> r == Fail(400, "Invalid time format. Use HH:MM")
    ensures parsed.Some? && parsed.value.offset.Some? <==> r == Fail(500, InternalError)
    ensures r.Ok? ==> r.value.phoneNumber == phone && r.value.callTime == callTime && r.value.timezone == timezone
    ensures r.Ok? ==> (r.value.isValid <==> NotAfter(WindowStart, parsed.value) && NotAfter(parsed.value, WindowEnd))
    ensures r.Ok? ==> (r.value.reason ==
      if r.value.isValid then "Within TCPA allowed hours (8 AM - 9 PM)" else "Outside TCPA allowed hours")
  {
    if parsed.None? then Fail(400, "Invalid time format. Use HH:MM")
    else if parsed.value.offset.Some? then Fail(500, InternalError)
    else
      var ok := NotAfter(WindowStart, parsed.value) && NotAfter(parsed.value, WindowEnd);
      Ok(CallingTimeVerdict(phone, callTime, timezone, ok,
         if ok then "Within TCPA allowed hours (8 AM - 9 PM)" else "Outside TCPA allowed hours"))
  }

  /** Field-by-field comparison agrees with comparing microseconds since
      midnight. */
  lemma NotAfterIsMicros(a: TimeOfDay, b: TimeOfDay)
    requires WellFormed(a) && WellFormed(b)
    ensures NotAfter(a, b) <==> Micros(a) <= Micros(b)
  {
    var sa, sb := (a.hour * 60 + a.minute) * 60 + a.second, (b.hour * 60 + b.minute) * 60 + b.second;
    assert Micros(a) == sa * 1000000 + a.microsecond && Micros(b) == sb * 1000000 + b.microsecond;
    if sa < sb {
      assert (sa + 1) * 1000000 <= sb * 1000000;
    } else if sa > sb {
      assert (sb + 1) * 1000000 <= sa * 1000000;
    }
    var ma, mb := a.hour * 60 + a.minute, b.hour * 60 + b.minute;
    if ma < mb {
      assert (ma + 1) * 60 <= mb * 60;
    } else if ma > mb {
      assert (mb + 1) * 60 <= ma * 60;
    }
  }

  /** The window is 08:00 to 21:00 with both ends allowed: a naive time is
      valid exactly when it lies in that closed interval, so 21:00:00 is
      accepted and one microsecond later is not.  No weekday enters. */
  lemma CallingWindow(t: TimeOfDay, phone: string, timezone: string)
    requires WellFormed(t) && t.offset.None?
    ensures var r := ValidateCallingTime(phone, "", Some(t), timezone);
      r.Ok? && (r.value.isValid <==> Micros(WindowStart) <= Micros(t) <= Micros(WindowEnd))
  {
    NotAfterIsMicros(WindowStart, t);
    NotAfterIsMicros(t, WindowEnd);
  }
}
