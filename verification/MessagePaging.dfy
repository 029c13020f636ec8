/**
  Keyset paging of a session's messages, newest first, under a byte budget. The cursor of a
  page is text: the time and the id of its oldest row.
*/
module MessagePaging {
  import opened StringOrder
  import opened Whitespace
  import opened Wrappers

  const BUDGET := 512 * 1024
  const CONTENT_MAX := 64 * 1024
  const ROW_OVERHEAD := 512

  /**
    A stored time is a double. Only its order and its printed form matter here, so it is given
    by its rank among the doubles.
  */
  type Time = int

  /** `size` is the length of the UTF-8 content. */
  datatype Row = Row(created: Time, id: string, size: nat)

  // ---- the order of the query ----

  /** The row comes after the point `(created, id)` of the descending order. */
  predicate Older(row: Row, created: Time, id: string) {
    row.created < created || (row.created == created && Less(row.id, id))
  }

  /** The session's messages as the query orders them; no two rows have the same id. */
  ghost predicate Descending(rows: seq<Row>) {
    forall i, j {:trigger Older(rows[j], rows[i].created, rows[i].id)} ::
      0 <= i < j < |rows| ==> Older(rows[j], rows[i].created, rows[i].id)
  }

  /** Newest first, and of two rows of the same time the larger id first. */
  lemma NewestFirst(rows: seq<Row>)
    ensures Descending(rows)
        <==> forall i, j :: 0 <= i < j < |rows| ==>
               rows[j].created < rows[i].created
               || (rows[j].created == rows[i].created && Less(rows[j].id, rows[i].id))
  {
    forall i, j | 0 <= i < j < |rows|
      ensures Older(rows[j], rows[i].created, rows[i].id)
          <==> rows[j].created < rows[i].created
               || (rows[j].created == rows[i].created && Less(rows[j].id, rows[i].id))
    {
    }
  }

  datatype Cursor = Newest | Before(created: Time, id: string)

  predicate Asks(cursor: Cursor, row: Row) {
    cursor.Newest? || Older(row, cursor.created, cursor.id)
  }

  function Query(rows: seq<Row>, cursor: Cursor): seq<Row> {
    if rows == [] then []
    else
      var front, row := Query(rows[..|rows| - 1], cursor), rows[|rows| - 1];
      if Asks(cursor, row) then front + [row] else front
  }

  lemma {:induction false} QueryNewest(rows: seq<Row>)
    ensures Query(rows, Newest) == rows
  {
    if rows != [] { QueryNewest(rows[..|rows| - 1]); }
  }

  // ---- the cursor's text ----

  /** How a time is printed and read back: `%.17g` and `float` for doubles. */
  datatype Codec = Codec(show: Time -> string, parse: string -> Option<Time>)
  {
    ghost predicate Sound() {
      && (forall t :: parse(show(t)) == Some(t) && show(t) != "" && Plain(show(t)))
      && forall s :: parse(s).Some? ==> ':' !in s
    }
  }

  predicate Plain(s: string) {
    forall i :: 0 <= i < |s| ==> s[i] != ':' && !Space(Python, s[i])
  }

  function Strokes(t: Time): string {
    if t >= 0 then ['+'] + seq(t, _ => '1') else ['-'] + seq(-t, _ => '1')
  }

  lemma StrokesArePlain(t: Time)
    ensures Strokes(t) != "" && ':' !in Strokes(t) && Plain(Strokes(t))
    ensures |Strokes(t)| == 1 + (if t >= 0 then t else -t) && (Strokes(t)[0] == '+' <==> t >= 0)
  {
  }

  /** The assumption on printing is met, for instance by writing a sign and as many strokes. */
  lemma SoundCodecExists()
    ensures exists codec: Codec :: codec.Sound()
  {
    var parse := (s: string) =>
      if s == "" || ':' in s then None else if s[0] == '+' then Some(|s| - 1) else Some(1 - |s|);
    var codec := Codec(Strokes, parse);
    forall t ensures parse(Strokes(t)) == Some(t) && Strokes(t) != "" && Plain(Strokes(t)) {
      StrokesArePlain(t);
    }
    assert codec.Sound();
  }

  predicate IdChar(c: char) {
    'A' <= c <= 'Z' || 'a' <= c <= 'z' || '0' <= c <= '9' || c == '_' || c == '-'
  }

  predicate ValidId(id: string) {
    id != "" && |id| <= 128 && forall i :: 0 <= i < |id| ==> IdChar(id[i])
  }

  /** The parts around the last colon. */
  function SplitLast(s: string): Option<(string, string)> {
    if s == "" then None
    else if s[|s| - 1] == ':' then Some((s[..|s| - 1], ""))
    else
      match SplitLast(s[..|s| - 1])
      case None => None
      case Some((left, right)) => Some((left, right + [s[|s| - 1]]))
  }

  function Encode(codec: Codec, row: Row): string {
    codec.show(row.created) + ":" + row.id
  }

  /** `None` is the invalid-cursor error. */
  function Decode(codec: Codec, text: string): Option<Cursor> {
    var raw := Strip(Python, text);
    if raw == "" then Some(Newest)
    else
      match SplitLast(raw)
      case None => None
      case Some((left, id)) =>
        var created := codec.parse(left);
        if created.Some? && ValidId(id) then Some(Before(created.value, id)) else None
  }

  lemma {:induction false} SplitAtColon(left: string, id: string)
    requires ':' !in id
    ensures SplitLast(left + ":" + id) == Some((left, id))
  {
    var s := left + ":" + id;
    if id == "" {
      assert s[..|s| - 1] == left;
    } else {
      var front := id[..|id| - 1];
      SplitAtColon(left, front);
      assert s[..|s| - 1] == left + ":" + front;
      assert front + [id[|id| - 1]] == id;
    }
  }

  /** With a colon in the id, what is split off on the left has a colon in it too. */
  lemma {:induction false} SplitInId(left: string, id: string)
    requires ':' in id
    ensures var split := SplitLast(left + ":" + id); split.Some? && ':' in split.value.0
  {
    var s, front := left + ":" + id, id[..|id| - 1];
    assert id == front + [id[|id| - 1]];
    assert s[..|s| - 1] == left + ":" + front;
    if id[|id| - 1] == ':' {
      assert (left + ":" + front)[|left|] == ':';
    } else {
      SplitInId(left, front);
    }
  }

  lemma StripCursor(codec: Codec, row: Row)
    requires codec.Sound()
    ensures Strip(Python, Encode(codec, row)) == codec.show(row.created) + ":" + TrimRight(Python, row.id)
  {
    var time := codec.show(row.created);
    assert Plain(time) && Encode(codec, row)[0] == time[0];
    TrimRightOfAppend(Python, time + ":", row.id);
  }

  /**
    What a cursor made from a row decodes to: white space at the end of the id is lost, and
    what is left of it must be well formed.
  */
  lemma DecodedCursor(codec: Codec, row: Row)
    requires codec.Sound()
    ensures Decode(codec, Encode(codec, row))
         == if ValidId(TrimRight(Python, row.id)) then Some(Before(row.created, TrimRight(Python, row.id))) else None
  {
    var time, id := codec.show(row.created), TrimRight(Python, row.id);
    StripCursor(codec, row);
    assert time + ":" + id != "";
    if ':' in id { SplitInId(time, id); } else { SplitAtColon(time, id); }
    assert ':' in id ==> !ValidId(id) by { assert !IdChar(':'); }
  }

  /** A cursor decodes to the row it was made from exactly when that row's id is well formed. */
  lemma CursorRoundTrip(codec: Codec, row: Row)
    requires codec.Sound()
    ensures Decode(codec, Encode(codec, row)) == Some(Before(row.created, row.id)) <==> ValidId(row.id)
  {
    DecodedCursor(codec, row);
  }

  // ---- one page ----

  function Cost(row: Row): nat {
    (if row.size > CONTENT_MAX then CONTENT_MAX else row.size) + ROW_OVERHEAD
  }

  function TotalCost(rows: seq<Row>): nat {
    if rows == [] then 0 else TotalCost(rows[..|rows| - 1]) + Cost(rows[|rows| - 1])
  }

  function Clamp(limit: int): nat {
    if limit < 1 then 1 else if limit > 100 then 100 else limit
  }

  /** The most rows from the front that fit the budget, the first always among them. */
  function Fitting(rows: seq<Row>): (n: nat)
    ensures n <= |rows|
  {
    if rows == [] then 0
    else
      var n := Fitting(rows[..|rows| - 1]);
      if n == |rows| - 1 && (n == 0 || TotalCost(rows) <= BUDGET) then n + 1 else n
  }

  lemma {:induction false} FittingFacts(rows: seq<Row>)
    ensures rows != [] ==> Fitting(rows) > 0
    ensures TotalCost(rows[..Fitting(rows)]) <= BUDGET
    ensures Fitting(rows) < |rows| ==> TotalCost(rows[..Fitting(rows) + 1]) > BUDGET
  {
    if rows != [] {
      FittingFacts(rows[..|rows| - 1]);
      FittingStep(rows, Fitting(rows[..|rows| - 1]));
    }
  }

  lemma FittingStep(rows: seq<Row>, n: nat)
    requires rows != [] && n <= |rows| - 1
    ensures rows[..|rows|] == rows && rows[..|rows| - 1][..n] == rows[..n]
    ensures n + 1 <= |rows| - 1 ==> rows[..|rows| - 1][..n + 1] == rows[..n + 1]
    ensures TotalCost(rows) == TotalCost(rows[..|rows| - 1]) + Cost(rows[|rows| - 1])
    ensures |rows| == 1 ==> TotalCost(rows) <= BUDGET
  {
    assert |rows| == 1 ==> rows[..0] == [];
  }

  /** Messages are returned oldest first; `next` is empty when there is nothing more. */
  datatype Page = Page(messages: seq<Row>, hasMore: bool, next: string, truncated: bool)

  function Selected(rows: seq<Row>, cursor: Cursor, limit: int): seq<Row> {
    var raw := Take(Query(rows, cursor), Clamp(limit));
    raw[..Fitting(raw)]
  }

  function Take(rows: seq<Row>, n: nat): seq<Row> {
    if |rows| <= n then rows else rows[..n]
  }

  function Reversed(rows: seq<Row>): seq<Row> {
    if rows == [] then [] else [rows[|rows| - 1]] + Reversed(rows[..|rows| - 1])
  }

  lemma {:induction false} ReversedTurns(rows: seq<Row>)
    ensures |Reversed(rows)| == |rows|
    ensures forall i :: 0 <= i < |rows| ==> Reversed(rows)[i] == rows[|rows| - 1 - i]
  {
    if rows != [] { ReversedTurns(rows[..|rows| - 1]); }
  }

  function PageOf(codec: Codec, rows: seq<Row>, cursor: Cursor, limit: int): Page {
    var found := Query(rows, cursor);
    var selected := Selected(rows, cursor, limit);
    var truncated := |selected| < |Take(found, Clamp(limit))|;
    var hasMore := |found| > Clamp(limit) || truncated;
    Page(Reversed(selected), hasMore,
         if hasMore && selected != [] then Encode(codec, selected[|selected| - 1]) else "", truncated)
  }

  /** The budget loop over the fetched rows. */
  method SelectRows(raw: seq<Row>) returns (selected: seq<Row>, truncated: bool)
    ensures selected == raw[..Fitting(raw)] && truncated == (|selected| < |raw|)
  {
    var used := 0;
    selected, truncated := [], false;
    for i := 0 to |raw|
      invariant selected == raw[..i] && used == TotalCost(selected) <= BUDGET
    {
      var cost := Cost(raw[i]);
      assert raw[..i + 1][..i] == raw[..i];
      if selected != [] && used + cost > BUDGET {
        FittingIs(raw, i);
        return selected, true;
      }
      used := used + cost;
      selected := selected + [raw[i]];
    }
    FittingIs(raw, |raw|);
  }

  method SessionPage(codec: Codec, rows: seq<Row>, before: string, limit: int) returns (page: Option<Page>)
    ensures page == match Decode(codec, before)
                    case None => None
                    case Some(cursor) => Some(PageOf(codec, rows, cursor, limit))
  {
    var cursor := Decode(codec, before);
    if cursor.None? { return None; }
    var n := Clamp(limit);
    var fetched := Take(Query(rows, cursor.value), n + 1);
    var raw := Take(fetched, n);
    assert raw == Take(Query(rows, cursor.value), n);
    var selected, truncated := SelectRows(raw);
    var hasMore := |fetched| > n || truncated;
    var next := if hasMore && selected != [] then Encode(codec, selected[|selected| - 1]) else "";
    page := Some(Page(Reversed(selected), hasMore, next, truncated));
  }

  lemma {:induction false} TotalGrows(rows: seq<Row>, i: nat, j: nat)
    requires i <= j <= |rows|
    ensures TotalCost(rows[..i]) <= TotalCost(rows[..j])
    decreases j
  {
    if i < j {
      TotalGrows(rows, i, j - 1);
      assert rows[..j][..j - 1] == rows[..j - 1];
    }
  }

  lemma FittingIs(rows: seq<Row>, n: nat)
    requires n <= |rows| && (rows != [] ==> n > 0) && TotalCost(rows[..n]) <= BUDGET
    requires n < |rows| ==> TotalCost(rows[..n + 1]) > BUDGET
    ensures Fitting(rows) == n
  {
    var m := Fitting(rows);
    FittingFacts(rows);
    if m < n { TotalGrows(rows, m + 1, n); }
    if n < m { TotalGrows(rows, n + 1, m); }
  }

  // ---- following the cursors ----

  /** `cursor` stands before row `k` of the session: it asks for exactly the rows from there on. */
  ghost predicate At(rows: seq<Row>, cursor: Cursor, k: nat) {
    k <= |rows| && Query(rows, cursor) == rows[k..]
  }

  /** How many rows from `i` on still fit with `used` bytes spent, at most `room` of them. */
  function More(rows: seq<Row>, i: nat, room: nat, used: nat): (n: nat)
    requires i <= |rows|
    ensures i + n <= |rows|
    decreases room
  {
    if i == |rows| || room == 0 || used + Cost(rows[i]) > BUDGET then 0
    else 1 + More(rows, i + 1, room - 1, used + Cost(rows[i]))
  }

  /** How many rows the page at row `k` shows: the first whatever it costs, then what fits. */
  function PageSize(rows: seq<Row>, k: nat, limit: int): (n: nat)
    requires k <= |rows|
    ensures k + n <= |rows| && (k < |rows| ==> n > 0)
  {
    if k == |rows| then 0 else 1 + More(rows, k + 1, Clamp(limit) - 1, Cost(rows[k]))
  }

  lemma {:induction false} MoreIsFitting(rows: seq<Row>, k: nat, room: nat, i: nat)
    requires k <= |rows|
    requires var raw := Take(rows[k..], room); 0 < i <= |raw| && TotalCost(raw[..i]) <= BUDGET
    ensures var raw := Take(rows[k..], room); Fitting(raw) == i + More(rows, k + i, room - i, TotalCost(raw[..i]))
    decreases room - i
  {
    var raw := Take(rows[k..], room);
    if i < |raw| {
      assert raw[..i + 1][..i] == raw[..i] && raw[i] == rows[k + i];
      if TotalCost(raw[..i + 1]) <= BUDGET { MoreIsFitting(rows, k, room, i + 1); } else { FittingIs(raw, i); }
    } else {
      FittingIs(raw, i);
    }
  }

  /** The page size is what the budget loop selects. */
  lemma PageSizeIsFitting(rows: seq<Row>, k: nat, limit: int)
    requires k <= |rows|
    ensures PageSize(rows, k, limit) == Fitting(Take(rows[k..], Clamp(limit)))
  {
    if k < |rows| {
      var raw := Take(rows[k..], Clamp(limit));
      assert raw[..1] == [rows[k]] && [rows[k]][..0] == [];
      MoreIsFitting(rows, k, Clamp(limit), 1);
    }
  }

  // ---- how long a page is ----

  /** The content sent for a row: at most the first 64 KiB. */
  function Cut(row: Row): Row {
    if row.size > 65536 then row.(size := 65536) else row
  }

  /** The bytes of the contents of the rows. */
  ghost function Contents(rows: seq<Row>): nat {
    if rows == [] then 0 else Contents(rows[..|rows| - 1]) + rows[|rows| - 1].size
  }

  /** What is counted for rows: the contents sent for them, and 512 bytes for each. */
  ghost function Sent(rows: seq<Row>): nat {
    Contents(seq(|rows|, i requires 0 <= i < |rows| => Cut(rows[i]))) + 512 * |rows|
  }

  lemma {:induction false} CostIsWhatIsSent(rows: seq<Row>)
    ensures TotalCost(rows) == Sent(rows)
  {
    if rows != [] {
      var front := rows[..|rows| - 1];
      CostIsWhatIsSent(front);
      var sent := seq(|rows|, i requires 0 <= i < |rows| => Cut(rows[i]));
      assert sent[..|rows| - 1] == seq(|front|, i requires 0 <= i < |front| => Cut(front[i]));
    }
  }

  /** A page at row `k` may hold `n` rows: they exist, are no more than asked for, and fit in 512 KiB. */
  ghost predicate MayHold(rows: seq<Row>, k: nat, limit: int, n: nat) {
    k + n <= |rows| && n <= 100 && (n <= 1 || n <= limit) && Sent(rows[k..k + n]) <= 524288
  }

  /** A page is as long as it may be. */
  lemma PageIsAsLongAsMayBe(rows: seq<Row>, k: nat, limit: int)
    requires k <= |rows|
    ensures MayHold(rows, k, limit, PageSize(rows, k, limit))
    ensures forall n: nat :: MayHold(rows, k, limit, n) ==> n <= PageSize(rows, k, limit)
  {
    var raw, size := Take(rows[k..], Clamp(limit)), PageSize(rows, k, limit);
    PageSizeIsFitting(rows, k, limit);
    FittingFacts(raw);
    assert raw[..size] == rows[k..k + size];
    CostIsWhatIsSent(raw[..size]);
    forall n: nat | MayHold(rows, k, limit, n) && n > size ensures false {
      assert n <= |raw| && raw[..n] == rows[k..k + n];
      CostIsWhatIsSent(raw[..n]);
      TotalGrows(raw, size + 1, n);
    }
  }

  lemma {:induction false} ShortContentsFit(rows: seq<Row>)
    requires forall i :: 0 <= i < |rows| ==> rows[i].size <= 4730
    ensures TotalCost(rows) <= 5242 * |rows|
  {
    if rows != [] { ShortContentsFit(rows[..|rows| - 1]); }
  }

  /** Rows of at most 4730 bytes all fit: the page then holds as many as are asked for, one to a hundred. */
  lemma ShortRowsFillThePage(rows: seq<Row>, k: nat, limit: int)
    requires k <= |rows| && forall i :: k <= i < |rows| ==> rows[i].size <= 4730
    ensures var n := PageSize(rows, k, limit);
            k + n == |rows| || n == 100 || (n == 1 && limit <= 1) || (n == limit && 1 <= limit <= 100)
  {
    var n := PageSize(rows, k, limit);
    PageIsAsLongAsMayBe(rows, k, limit);
    if k + n < |rows| && n < 100 {
      var longer := rows[k..k + n + 1];
      ShortContentsFit(longer);
      CostIsWhatIsSent(longer);
      assert !MayHold(rows, k, limit, n + 1);
    }
  }

  /**
    A page taken at row `k` shows the next rows, at least one if there are any and never more
    than the budget; its `next` is empty exactly at the end, and else made from its last row.
  */
  lemma PageAdvances(codec: Codec, rows: seq<Row>, cursor: Cursor, k: nat, limit: int)
    requires At(rows, cursor, k)
    ensures var page, n := PageOf(codec, rows, cursor, limit), k + PageSize(rows, k, limit);
            && Selected(rows, cursor, limit) == rows[k..n] && TotalCost(rows[k..n]) <= BUDGET
            && (page.hasMore <==> n < |rows|)
            && page.next == (if n < |rows| then Encode(codec, rows[n - 1]) else "")
  {
    SelectedAre(rows, cursor, k, limit);
    FittingFacts(Take(rows[k..], Clamp(limit)));
    PageSizeIsFitting(rows, k, limit);
  }

  lemma SelectedAre(rows: seq<Row>, cursor: Cursor, k: nat, limit: int)
    requires At(rows, cursor, k)
    ensures Selected(rows, cursor, limit) == rows[k..k + PageSize(rows, k, limit)]
    ensures TotalCost(Selected(rows, cursor, limit)) <= BUDGET
  {
    var raw, n := Take(rows[k..], Clamp(limit)), PageSize(rows, k, limit);
    FittingFacts(raw);
    PageSizeIsFitting(rows, k, limit);
    assert raw[..n] == rows[k..][..n] == rows[k..k + n];
  }

  /** A page is called truncated when, with more to follow, it holds fewer rows than asked for. */
  lemma TruncatedExactlyWhen(codec: Codec, rows: seq<Row>, cursor: Cursor, k: nat, limit: int)
    requires At(rows, cursor, k)
    ensures var n := PageSize(rows, k, limit);
            PageOf(codec, rows, cursor, limit).truncated <==> k + n < |rows| && n < 100 && n < limit
  {
    SelectedAre(rows, cursor, k, limit);
  }

  /** The messages of a page come in the order they were created. */
  lemma PageIsOldestFirst(codec: Codec, rows: seq<Row>, cursor: Cursor, k: nat, limit: int)
    requires At(rows, cursor, k)
    ensures PageOf(codec, rows, cursor, limit).messages == Reversed(rows[k..k + PageSize(rows, k, limit)])
  {
    PageAdvances(codec, rows, cursor, k, limit);
  }

  lemma {:induction false} QueryMembers(rows: seq<Row>, cursor: Cursor)
    ensures forall row :: row in Query(rows, cursor) <==> row in rows && Asks(cursor, row)
  {
    if rows != [] {
      QueryMembers(rows[..|rows| - 1], cursor);
      assert rows == rows[..|rows| - 1] + [rows[|rows| - 1]];
    }
  }

  lemma {:induction false} QueryShrinks(rows: seq<Row>, wide: Cursor, narrow: Cursor)
    requires forall row :: Asks(narrow, row) ==> Asks(wide, row)
    ensures |Query(rows, narrow)| <= |Query(rows, wide)|
  {
    if rows != [] { QueryShrinks(rows[..|rows| - 1], wide, narrow); }
  }

  lemma {:induction false} QueryShrinksBy(rows: seq<Row>, wide: Cursor, narrow: Cursor, row: Row)
    requires forall r :: Asks(narrow, r) ==> Asks(wide, r)
    requires row in rows && Asks(wide, row) && !Asks(narrow, row)
    ensures |Query(rows, narrow)| < |Query(rows, wide)|
  {
    var front := rows[..|rows| - 1];
    assert rows == front + [rows[|rows| - 1]];
    if rows[|rows| - 1] == row { QueryShrinks(front, wide, narrow); } else { QueryShrinksBy(front, wide, narrow, row); }
  }

  /** What the cursor made from a row decodes to, if its id is well formed up to white space at its end. */
  function CursorOf(row: Row): Cursor {
    Before(row.created, TrimRight(Python, row.id))
  }

  /** A page's cursor text is made from a row the page was asked for. */
  lemma NextIsMadeFrom(codec: Codec, rows: seq<Row>, cursor: Cursor, limit: int) returns (last: Row)
    requires codec.Sound() && PageOf(codec, rows, cursor, limit).next != ""
    ensures last in rows && Asks(cursor, last)
    ensures Decode(codec, PageOf(codec, rows, cursor, limit).next)
         == if ValidId(TrimRight(Python, last.id)) then Some(CursorOf(last)) else None
  {
    var selected := Selected(rows, cursor, limit);
    last := selected[|selected| - 1];
    FrontMember(Query(rows, cursor), Clamp(limit), Fitting(Take(Query(rows, cursor), Clamp(limit))), |selected| - 1);
    QueryMembers(rows, cursor);
    DecodedCursor(codec, last);
  }

  lemma FrontMember(s: seq<Row>, n: nat, m: nat, i: nat)
    requires i < m <= |Take(s, n)|
    ensures Take(s, n)[..m][i] in s
  {
    assert Take(s, n)[..m][i] == s[i];
  }

  /** Once decoded it asks for strictly less. */
  lemma NextAsksLess(codec: Codec, rows: seq<Row>, cursor: Cursor, limit: int)
    requires codec.Sound() && PageOf(codec, rows, cursor, limit).next != ""
    ensures var next := Decode(codec, PageOf(codec, rows, cursor, limit).next);
            next.Some? ==> |Query(rows, next.value)| < |Query(rows, cursor)|
                           && forall row :: Asks(next.value, row) ==> Asks(cursor, row)
  {
    var last := NextIsMadeFrom(codec, rows, cursor, limit);
    if ValidId(TrimRight(Python, last.id)) { TrimmedAsksLess(rows, cursor, last); }
  }

  lemma TrimmedAsksLess(rows: seq<Row>, cursor: Cursor, last: Row)
    requires last in rows && Asks(cursor, last)
    ensures |Query(rows, CursorOf(last))| < |Query(rows, cursor)|
    ensures forall row :: Asks(CursorOf(last), row) ==> Asks(cursor, row)
  {
    forall row | Asks(CursorOf(last), row) ensures Asks(cursor, row) && row != last {
      OlderThanTrimmed(row, last, cursor);
    }
    QueryShrinksBy(rows, cursor, CursorOf(last), last);
  }

  lemma OlderThanTrimmed(row: Row, last: Row, cursor: Cursor)
    requires Asks(cursor, last) && Older(row, last.created, TrimRight(Python, last.id))
    ensures Asks(cursor, row) && row != last
  {
    TrimRightFacts(Python, last.id);
    PrefixIsLess(TrimRight(Python, last.id), last.id);
    if row.created == last.created {
      if TrimRight(Python, last.id) != last.id { LessIsTransitive(row.id, TrimRight(Python, last.id), last.id); }
      LessIsTotal(row.id, last.id);
      if cursor.Before? && cursor.created == last.created { LessIsTransitive(row.id, last.id, cursor.id); }
    }
  }

  lemma {:induction false} PrefixIsLess(a: string, b: string)
    requires a <= b
    ensures a == b || Less(a, b)
  {
    if a != "" { PrefixIsLess(a[1..], b[1..]); }
  }

  /**
    The pages got by following `next` from `cursor` until it is empty or, being no valid
    cursor, is answered with an error; newest row first.
  */
  ghost function Walk(codec: Codec, rows: seq<Row>, cursor: Cursor, limit: int): seq<seq<Row>>
    requires codec.Sound()
    decreases |Query(rows, cursor)|
  {
    var text := PageOf(codec, rows, cursor, limit).next;
    [Selected(rows, cursor, limit)] +
    if text == "" || Decode(codec, text).None? then []
    else
      NextAsksLess(codec, rows, cursor, limit);
      Walk(codec, rows, Decode(codec, text).value, limit)
  }

  ghost function Concat(pages: seq<seq<Row>>): seq<Row> {
    if pages == [] then [] else pages[0] + Concat(pages[1..])
  }

  lemma ConcatFirst(page: seq<Row>, rest: seq<seq<Row>>)
    ensures Concat([page] + rest) == page + Concat(rest)
  {
    assert ([page] + rest)[1..] == rest;
  }

  /** Every page is within the budget and every page but the last is non-empty. */
  ghost predicate EachFits(pages: seq<seq<Row>>) {
    pages == [] ||
    (TotalCost(pages[0]) <= BUDGET && (|pages| > 1 ==> pages[0] != []) && EachFits(pages[1..]))
  }

  /** Whatever the ids, the walk ends and its pages are within the budget. */
  lemma {:induction false} WalkFits(codec: Codec, rows: seq<Row>, cursor: Cursor, limit: int)
    requires codec.Sound()
    ensures EachFits(Walk(codec, rows, cursor, limit))
    decreases |Query(rows, cursor)|
  {
    var text := PageOf(codec, rows, cursor, limit).next;
    FittingFacts(Take(Query(rows, cursor), Clamp(limit)));
    if text != "" && Decode(codec, text).Some? {
      NextAsksLess(codec, rows, cursor, limit);
      WalkFits(codec, rows, Decode(codec, text).value, limit);
    }
  }

  /** A walk never shows a row its first cursor does not ask for. */
  lemma {:induction false} WalkShowsAsked(codec: Codec, rows: seq<Row>, cursor: Cursor, limit: int)
    requires codec.Sound()
    ensures forall row :: row in Concat(Walk(codec, rows, cursor, limit)) ==> Asks(cursor, row)
    decreases |Query(rows, cursor)|
  {
    var text, selected := PageOf(codec, rows, cursor, limit).next, Selected(rows, cursor, limit);
    QueryMembers(rows, cursor);
    forall row | row in selected ensures Asks(cursor, row) { assert row in Query(rows, cursor); }
    if text == "" || Decode(codec, text).None? {
      ConcatFirst(selected, []);
    } else {
      NextAsksLess(codec, rows, cursor, limit);
      var next := Decode(codec, text).value;
      WalkShowsAsked(codec, rows, next, limit);
      ConcatFirst(selected, Walk(codec, rows, next, limit));
    }
  }

  // ---- when a walk is complete ----

  /**
    A page may end on row `i`, with more to follow: the row's id, white space at its end
    aside, is well formed, and the next row is older than that point.
  */
  predicate GoodBreak(rows: seq<Row>, i: nat)
    requires i + 1 < |rows|
  {
    ValidId(TrimRight(Python, rows[i].id)) && Older(rows[i + 1], rows[i].created, TrimRight(Python, rows[i].id))
  }

  /** Every page from row `k` on with more to follow ends on such a row. */
  ghost predicate GoodBreaks(rows: seq<Row>, k: nat, limit: int)
    requires k <= |rows|
    decreases |rows| - k
  {
    var n := k + PageSize(rows, k, limit);
    n == |rows| || (GoodBreak(rows, n - 1) && GoodBreaks(rows, n, limit))
  }

  /** Asking for what is older than a good break gives the rows after it. */
  lemma BreakLeadsOn(rows: seq<Row>, i: nat)
    requires Descending(rows) && i + 1 < |rows|
    ensures GoodBreak(rows, i) <==>
            var id := TrimRight(Python, rows[i].id); ValidId(id) && At(rows, Before(rows[i].created, id), i + 1)
  {
    var cursor := Before(rows[i].created, TrimRight(Python, rows[i].id));
    TrimRightFacts(Python, rows[i].id);
    if GoodBreak(rows, i) {
      AsksFrom(rows, cursor, i + 1);
    }
    if At(rows, cursor, i + 1) {
      QueryMembers(rows, cursor);
      assert rows[i + 1] in rows[i + 1..];
    }
  }

  /** A cursor asking for row `k`, but for none before it, asks for all from `k` on. */
  lemma AsksFrom(rows: seq<Row>, cursor: Cursor, k: nat)
    requires Descending(rows) && 0 < k < |rows| && cursor.Before? && Older(rows[k], cursor.created, cursor.id)
    requires cursor.created == rows[k - 1].created && cursor.id <= rows[k - 1].id
    ensures At(rows, cursor, k)
  {
    forall j | 0 <= j < |rows| ensures Asks(cursor, rows[j]) <==> j >= k {
      if j >= k { OlderStill(rows, j, k, cursor); } else { NotOlder(rows, j, k - 1, cursor); }
    }
    QuerySuffix(rows, cursor, k);
  }

  lemma OlderStill(rows: seq<Row>, j: nat, k: nat, cursor: Cursor)
    requires Descending(rows) && k <= j < |rows| && cursor.Before? && Older(rows[k], cursor.created, cursor.id)
    ensures Older(rows[j], cursor.created, cursor.id)
  {
    if k < j {
      assert Older(rows[j], rows[k].created, rows[k].id);
      if rows[j].created == cursor.created { LessIsTransitive(rows[j].id, rows[k].id, cursor.id); }
    }
  }

  lemma NotOlder(rows: seq<Row>, j: nat, i: nat, cursor: Cursor)
    requires Descending(rows) && j <= i < |rows| && cursor.Before?
    requires cursor.created == rows[i].created && cursor.id <= rows[i].id
    ensures !Older(rows[j], cursor.created, cursor.id)
  {
    PrefixIsLess(cursor.id, rows[i].id);
    if j < i { assert Older(rows[i], rows[j].created, rows[j].id); }
    if Less(rows[j].id, cursor.id) && cursor.id != rows[i].id { LessIsTransitive(rows[j].id, cursor.id, rows[i].id); }
    LessIsTotal(rows[j].id, rows[i].id);
  }

  lemma {:induction false} QuerySuffix(rows: seq<Row>, cursor: Cursor, k: nat)
    requires k <= |rows| && forall j :: 0 <= j < |rows| ==> (Asks(cursor, rows[j]) <==> j >= k)
    ensures Query(rows, cursor) == rows[k..]
  {
    if rows != [] {
      var front := rows[..|rows| - 1];
      assert forall j :: 0 <= j < |front| ==> front[j] == rows[j];
      if k == |rows| {
        QuerySuffix(front, cursor, |front|);
      } else {
        QuerySuffix(front, cursor, k);
        assert rows[k..] == front[k..] + [rows[|rows| - 1]];
      }
    }
  }

  /** One page of a walk from row `k`, and where it goes on from, if it does. */
  lemma WalkStep(codec: Codec, rows: seq<Row>, cursor: Cursor, k: nat, limit: int)
    requires codec.Sound() && At(rows, cursor, k)
    ensures var n := k + PageSize(rows, k, limit);
            Walk(codec, rows, cursor, limit)
            == [rows[k..n]] + if n < |rows| && ValidId(TrimRight(Python, rows[n - 1].id))
                              then Walk(codec, rows, CursorOf(rows[n - 1]), limit) else []
  {
    var n := k + PageSize(rows, k, limit);
    PageAdvances(codec, rows, cursor, k, limit);
    if n < |rows| {
      DecodedCursor(codec, rows[n - 1]);
      assert Encode(codec, rows[n - 1]) != "";
    }
  }

  /** The same told of the rows shown. */
  ghost predicate Follows(rows: seq<Row>, limit: int, shows: Cursor -> seq<Row>, cursor: Cursor, k: nat) {
    At(rows, cursor, k) ==>
      var n := k + PageSize(rows, k, limit);
      shows(cursor) == rows[k..n] + if n < |rows| && ValidId(TrimRight(Python, rows[n - 1].id))
                                    then shows(CursorOf(rows[n - 1])) else []
  }

  ghost predicate ShowsAsked(shows: Cursor -> seq<Row>) {
    forall cursor, row :: row in shows(cursor) ==> Asks(cursor, row)
  }

  lemma WalkFollows(codec: Codec, rows: seq<Row>, limit: int, cursor: Cursor, k: nat)
    requires codec.Sound()
    ensures Follows(rows, limit, c => Concat(Walk(codec, rows, c, limit)), cursor, k)
  {
    if At(rows, cursor, k) {
      var n := k + PageSize(rows, k, limit);
      WalkStep(codec, rows, cursor, k, limit);
      if n < |rows| && ValidId(TrimRight(Python, rows[n - 1].id)) {
        ConcatFirst(rows[k..n], Walk(codec, rows, CursorOf(rows[n - 1]), limit));
      } else {
        ConcatFirst(rows[k..n], []);
      }
    }
  }

  /** What a walk shows after a page ending on the row. */
  ghost function ShownAfter(shows: Cursor -> seq<Row>, row: Row): seq<Row> {
    if ValidId(TrimRight(Python, row.id)) then shows(CursorOf(row)) else []
  }

  lemma FollowedOnce(rows: seq<Row>, limit: int, shows: Cursor -> seq<Row>, cursor: Cursor, k: nat)
    requires At(rows, cursor, k) && Follows(rows, limit, shows, cursor, k)
    ensures var n := k + PageSize(rows, k, limit);
            shows(cursor) == rows[k..] <==> n == |rows| || ShownAfter(shows, rows[n - 1]) == rows[n..]
  {
    var n := k + PageSize(rows, k, limit);
    if n == |rows| {
      assert shows(cursor) == rows[k..n] + [];
    } else {
      Continues(rows, k, n, shows(cursor), ShownAfter(shows, rows[n - 1]));
    }
  }

  /** A page and what follows it: nothing is missed if it ends on a good break and nothing is missed after that. */
  lemma FollowedStep(rows: seq<Row>, limit: int, shows: Cursor -> seq<Row>, cursor: Cursor, k: nat)
    requires Descending(rows) && At(rows, cursor, k) && ShowsAsked(shows) && Follows(rows, limit, shows, cursor, k)
    ensures var n := k + PageSize(rows, k, limit);
            && (n == |rows| ==> shows(cursor) == rows[k..])
            && (n < |rows| && !GoodBreak(rows, n - 1) ==> shows(cursor) != rows[k..])
            && (n < |rows| && GoodBreak(rows, n - 1) ==>
                  && At(rows, CursorOf(rows[n - 1]), n)
                  && (shows(cursor) == rows[k..] <==> shows(CursorOf(rows[n - 1])) == rows[n..]))
  {
    var n := k + PageSize(rows, k, limit);
    FollowedOnce(rows, limit, shows, cursor, k);
    if n < |rows| {
      if GoodBreak(rows, n - 1) { BreakLeadsOn(rows, n - 1); } else { BadBreakMisses(rows, n, shows); }
    }
  }

  lemma {:induction false} FollowedExactlyWhen(rows: seq<Row>, limit: int, shows: Cursor -> seq<Row>,
                                               cursor: Cursor, k: nat)
    requires Descending(rows) && At(rows, cursor, k) && ShowsAsked(shows)
    requires forall c, i: nat :: Follows(rows, limit, shows, c, i)
    ensures shows(cursor) == rows[k..] <==> GoodBreaks(rows, k, limit)
    decreases |rows| - k
  {
    var n := k + PageSize(rows, k, limit);
    assert Follows(rows, limit, shows, cursor, k);
    FollowedStep(rows, limit, shows, cursor, k);
    if n < |rows| && GoodBreak(rows, n - 1) {
      FollowedExactlyWhen(rows, limit, shows, CursorOf(rows[n - 1]), n);
    }
  }

  lemma BadBreakMisses(rows: seq<Row>, n: nat, shows: Cursor -> seq<Row>)
    requires 0 < n < |rows| && ShowsAsked(shows) && !GoodBreak(rows, n - 1)
    ensures ShownAfter(shows, rows[n - 1]) != rows[n..]
  {
    assert rows[n] in rows[n..];
  }

  lemma Continues(rows: seq<Row>, k: nat, n: nat, shown: seq<Row>, rest: seq<Row>)
    requires k < n < |rows| && shown == rows[k..n] + rest
    ensures shown == rows[k..] <==> rest == rows[n..]
  {
    assert rows[k..] == rows[k..n] + rows[n..];
    assert rest == shown[n - k..];
    assert rows[n..] == rows[k..][n - k..];
  }

  /**
    Following the cursors from row `k` on shows every message from there on exactly once, in
    descending order, if and only if every page with more to follow ends on a good break.
  */
  lemma WalkIsCompleteExactlyWhen(codec: Codec, rows: seq<Row>, cursor: Cursor, k: nat, limit: int)
    requires codec.Sound() && Descending(rows) && At(rows, cursor, k)
    ensures Concat(Walk(codec, rows, cursor, limit)) == rows[k..] <==> GoodBreaks(rows, k, limit)
  {
    var shows := (c: Cursor) => Concat(Walk(codec, rows, c, limit));
    forall c, i: nat ensures Follows(rows, limit, shows, c, i) { WalkFollows(codec, rows, limit, c, i); }
    forall c, row | row in shows(c) ensures Asks(c, row) { WalkShowsAsked(codec, rows, c, limit); }
    FollowedExactlyWhen(rows, limit, shows, cursor, k);
  }

  /** From the first request, without a cursor: the whole session, under the same condition. */
  lemma SessionIsShownOnceExactlyWhen(codec: Codec, rows: seq<Row>, limit: int)
    requires codec.Sound() && Descending(rows)
    ensures Decode(codec, "") == Some(Newest)
    ensures Concat(Walk(codec, rows, Newest, limit)) == rows <==> GoodBreaks(rows, 0, limit)
  {
    QueryNewest(rows);
    assert rows[0..] == rows;
    WalkIsCompleteExactlyWhen(codec, rows, Newest, 0, limit);
  }

  /** Every page from row `k` on with more to follow ends on a row with a well-formed id. */
  ghost predicate ValidEnds(rows: seq<Row>, k: nat, limit: int)
    requires k <= |rows|
    decreases |rows| - k
  {
    var n := k + PageSize(rows, k, limit);
    n == |rows| || (ValidId(rows[n - 1].id) && ValidEnds(rows, n, limit))
  }

  /** Well-formed ids at the page ends are enough. */
  lemma {:induction false} ValidEndsSuffice(rows: seq<Row>, k: nat, limit: int)
    requires Descending(rows) && k <= |rows| && ValidEnds(rows, k, limit)
    ensures GoodBreaks(rows, k, limit)
    decreases |rows| - k
  {
    var n := k + PageSize(rows, k, limit);
    if n < |rows| {
      ValidEndsSuffice(rows, n, limit);
    }
  }

  ghost predicate NoSpaceAtEnds(rows: seq<Row>) {
    forall i {:trigger TrimRight(Python, rows[i].id)} :: 0 <= i < |rows| ==> TrimRight(Python, rows[i].id) == rows[i].id
  }

  /** Where no id ends in white space they are also needed. */
  lemma {:induction false} ValidEndsAreNeeded(rows: seq<Row>, k: nat, limit: int)
    requires Descending(rows) && NoSpaceAtEnds(rows) && k <= |rows| && GoodBreaks(rows, k, limit)
    ensures ValidEnds(rows, k, limit)
    decreases |rows| - k
  {
    var n := k + PageSize(rows, k, limit);
    if n < |rows| {
      ValidEndsAreNeeded(rows, n, limit);
    }
  }

  // ---- sessions with ill-formed ids, one message a page ----

  /** The second of two messages is never shown: the first page's cursor is refused. */
  lemma RefusedCursorHidesTheRest(codec: Codec)
    requires codec.Sound()
    ensures var rows := [Row(2, "b/", 1), Row(1, "a", 1)];
            Descending(rows) && Walk(codec, rows, Newest, 1) == [[rows[0]]]
  {
    var rows := [Row(2, "b/", 1), Row(1, "a", 1)];
    QueryNewest(rows);
    assert rows[0..] == rows && rows[0..1] == [rows[0]];
    SlashIsRefused();
    WalkStep(codec, rows, Newest, 0, 1);
  }

  lemma SlashIsRefused()
    ensures TrimRight(Python, "b/") == "b/" && !ValidId("b/")
  {
    TrimRightFacts(Python, "b/");
    assert !IdChar("b/"[1]);
  }

  /** The second of two messages of the same moment is skipped: the space is lost from the cursor. */
  lemma LostSpaceSkipsARow(codec: Codec)
    requires codec.Sound()
    ensures var rows := [Row(1, "b ", 1), Row(1, "b", 1)];
            Descending(rows) && Concat(Walk(codec, rows, Newest, 1)) != rows
  {
    var rows := [Row(1, "b ", 1), Row(1, "b", 1)];
    SpaceIsTrimmed();
    LessIsTotal("b", "b");
    assert "b "[0] == "b"[0] && "b "[1..] == " " && "b"[1..] == "";
    SessionIsShownOnceExactlyWhen(codec, rows, 1);
  }

  /** An ill-formed id at a page end may also do no harm. */
  lemma LostSpaceMayDoNoHarm(codec: Codec)
    requires codec.Sound()
    ensures var rows := [Row(2, "b ", 1), Row(1, "a", 1)];
            Descending(rows) && !ValidEnds(rows, 0, 1) && Concat(Walk(codec, rows, Newest, 1)) == rows
  {
    SpaceBeforeAnotherMoment();
    SessionIsShownOnceExactlyWhen(codec, [Row(2, "b ", 1), Row(1, "a", 1)], 1);
  }

  lemma SpaceBeforeAnotherMoment()
    ensures var rows := [Row(2, "b ", 1), Row(1, "a", 1)];
            Descending(rows) && !ValidEnds(rows, 0, 1) && GoodBreaks(rows, 0, 1)
  {
    var rows := [Row(2, "b ", 1), Row(1, "a", 1)];
    SpaceIsTrimmed();
    assert !IdChar("b "[1]);
    assert PageSize(rows, 0, 1) == 1 && PageSize(rows, 1, 1) == 1;
  }

  lemma SpaceIsTrimmed()
    ensures TrimRight(Python, "b ") == "b" && ValidId("b")
  {
    assert "b "[..1] == "b";
  }
}
