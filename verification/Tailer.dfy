/** The alert tailer: polling a growing file of lines, importing the complete ones in batches. */
module Tailer {
  import opened Prelude
  import opened Keys

  // ----- lines -----

  /** A line this long or longer does not fit the scanner's buffer. */
  const MAX_LINE: nat := 2 * 1024 * 1024
  const BATCH: nat := 256

  function IndexNewline(s: string): (r: int)
    ensures -1 <= r < |s|
  {
    if s == "" then -1
    else if s[0] == '\n' then 0
    else
      var r := IndexNewline(s[1..]);
      if r < 0 then -1 else r + 1
  }

  lemma {:induction false} FirstNewline(s: string)
    ensures var r := IndexNewline(s); r >= 0 ==> s[r] == '\n'
    ensures var r := IndexNewline(s); forall i :: 0 <= i < (if r < 0 then |s| else r) ==> s[i] != '\n'
  {
    if s != "" && s[0] != '\n' {
      FirstNewline(s[1..]);
      assert forall i :: 0 < i < |s| ==> s[i] == s[1..][i - 1];
    }
  }

  function LastNewline(s: string): (r: int)
    ensures -1 <= r < |s| && (r >= 0 ==> s[r] == '\n')
  {
    if s == "" then -1 else if s[|s| - 1] == '\n' then |s| - 1 else LastNewline(s[..|s| - 1])
  }

  lemma {:induction false} NoneBehind(s: string)
    ensures forall i :: LastNewline(s) < i < |s| ==> s[i] != '\n'
  {
    if s != "" && s[|s| - 1] != '\n' {
      NoneBehind(s[..|s| - 1]);
    }
  }

  /** The lines of a text; a last line without a newline counts unless it is empty. */
  function Lines(s: string): seq<string>
    decreases |s|
  {
    if s == "" then []
    else
      var n := IndexNewline(s);
      if n < 0 then [s] else [s[..n]] + Lines(s[n + 1..])
  }

  predicate Whole(s: string) {
    s == "" || s[|s| - 1] == '\n'
  }

  /** The lines, each with a newline behind it. */
  function Unlines(lines: seq<string>): string {
    if lines == [] then "" else lines[0] + "\n" + Unlines(lines[1..])
  }

  /** No line contains a newline, and with newlines behind them the lines are the text again, whose
      last newline may be missing. */
  lemma {:induction false} LinesMeaning(s: string)
    ensures Unlines(Lines(s)) == if Whole(s) then s else s + "\n"
    ensures forall i :: 0 <= i < |Lines(s)| ==> '\n' !in Lines(s)[i]
    decreases |s|
  {
    FirstNewline(s);
    hide IndexNewline;
    if s != "" {
      var n := IndexNewline(s);
      if n < 0 {
        UnlinesCons(s, []);
        assert '\n' !in s;
        assert s[|s| - 1] != '\n';
      } else {
        LinesMeaning(s[n + 1..]);
        LinesStep(s);
        assert '\n' !in s[..n];
        hide Lines, Unlines, Whole;
        UnlinesCons(s[..n], Lines(s[n + 1..]));
        CutBehind(s, n);
      }
    }
  }

  lemma UnlinesCons(first: string, rest: seq<string>)
    ensures Unlines([first] + rest) == first + "\n" + Unlines(rest)
    ensures Unlines([first]) == first + "\n"
  {
    assert ([first] + rest)[1..] == rest && [first][1..] == [];
    assert first + "\n" + "" == first + "\n";
  }

  lemma CutBehind(s: string, n: nat)
    requires n < |s| && s[n] == '\n'
    ensures
      var rest := s[n + 1..];
      s[..n] + "\n" + (if Whole(rest) then rest else rest + "\n") == if Whole(s) then s else s + "\n"
  {
    var rest := s[n + 1..];
    assert s == s[..n] + "\n" + rest;
    assert rest != "" ==> rest[|rest| - 1] == s[|s| - 1];
    assert s[..n] + "\n" + (rest + "\n") == s + "\n";
  }

  lemma IndexOfAppended(a: string, b: string)
    requires IndexNewline(a) >= 0
    ensures IndexNewline(a + b) == IndexNewline(a)
  {
    FirstNewline(a);
    FirstNewline(a + b);
    var n := IndexNewline(a);
    assert (a + b)[n] == '\n';
    assert forall i :: 0 <= i < n ==> (a + b)[i] == a[i];
  }

  /** Lines do not depend on where a text is cut, as long as it is cut behind a newline. */
  lemma {:induction false} LinesOfAppended(a: string, b: string)
    requires Whole(a)
    ensures Lines(a + b) == Lines(a) + Lines(b)
    decreases |a|
  {
    if a == "" {
      assert a + b == b;
    } else {
      hide Lines, IndexNewline;
      var n := CutLine(a, b);
      LinesOfAppended(a[n + 1..], b);
      hide Whole;
      LineAppended(a, b, n);
    }
  }

  lemma LineAppended(a: string, b: string, n: nat)
    requires n < |a| && IndexNewline(a) == IndexNewline(a + b) == n
    requires (a + b)[..n] == a[..n] && (a + b)[n + 1..] == a[n + 1..] + b
    requires Lines(a[n + 1..] + b) == Lines(a[n + 1..]) + Lines(b)
    ensures Lines(a + b) == Lines(a) + Lines(b)
  {
    hide Lines, IndexNewline;
    LinesStep(a);
    LinesStep(a + b);
    Assoc([a[..n]], Lines(a[n + 1..]), Lines(b));
  }

  lemma CutLine(a: string, b: string) returns (n: nat)
    requires Whole(a) && a != ""
    ensures n < |a| && IndexNewline(a) == IndexNewline(a + b) == n && Whole(a[n + 1..])
    ensures (a + b)[..n] == a[..n] && (a + b)[n + 1..] == a[n + 1..] + b
  {
    FirstNewline(a);
    n := IndexNewline(a);
    IndexOfAppended(a, b);
    hide IndexNewline;
    var rest := a[n + 1..];
    assert rest != "" ==> rest[|rest| - 1] == a[|a| - 1];
  }

  lemma LinesStep(s: string)
    requires IndexNewline(s) >= 0
    ensures var n := IndexNewline(s); Lines(s) == [s[..n]] + Lines(s[n + 1..])
  {
    hide IndexNewline;
  }

  lemma Assoc<T>(a: seq<T>, b: seq<T>, c: seq<T>)
    ensures a + b + c == a + (b + c)
  {
  }

  /** The lines the scanner delivers before it gives up on one that is too long. */
  function Good(lines: seq<string>): (r: seq<string>)
    ensures r <= lines
  {
    if lines == [] || |lines[0]| >= MAX_LINE then [] else [lines[0]] + Good(lines[1..])
  }

  predicate TooLong(lines: seq<string>) {
    exists i :: 0 <= i < |lines| && |lines[i]| >= MAX_LINE
  }

  lemma {:induction false} GoodIsAll(lines: seq<string>)
    ensures TooLong(lines) <==> Good(lines) != lines
  {
    if lines != [] && |lines[0]| < MAX_LINE {
      GoodIsAll(lines[1..]);
      assert lines == [lines[0]] + lines[1..];
      if TooLong(lines) {
        var i :| 0 <= i < |lines| && |lines[i]| >= MAX_LINE;
        assert lines[1..][i - 1] == lines[i];
      }
    }
  }

  /** The alerts of the lines that are not empty and parse, in order. */
  function Parsed<A>(lines: seq<string>, parse: string -> Option<A>): seq<A> {
    if lines == [] then []
    else Parsed(lines[..|lines| - 1], parse) + ParsedLine(lines[|lines| - 1], parse)
  }

  function ParsedLine<A>(line: string, parse: string -> Option<A>): seq<A> {
    var text := TrimSpace(line);
    if text == "" then [] else
    match parse(text)
    case None => []
    case Some(a) => [a]
  }

  /** The lines that are not blank and parse, in order. */
  ghost predicate AlertPlaces<A>(lines: seq<string>, parse: string -> Option<A>, places: seq<nat>) {
    && Ascends(places, |lines|)
    && forall k :: 0 <= k < |lines| ==> (k in places <==> TrimSpace(lines[k]) != "" && parse(TrimSpace(lines[k])).Some?)
  }

  /** The alerts are what the trimmed lines that are not blank parse to, in the order of the lines;
      any other line gives none. */
  lemma {:induction false} ParsedInOrder<A>(lines: seq<string>, parse: string -> Option<A>) returns (places: seq<nat>)
    ensures AlertPlaces(lines, parse, places) && |Parsed(lines, parse)| == |places|
    ensures forall i :: 0 <= i < |places| ==> Some(Parsed(lines, parse)[i]) == parse(TrimSpace(lines[places[i]]))
  {
    hide TrimSpace;
    if lines == [] {
      places := [];
    } else {
      var n := |lines| - 1;
      var front := ParsedInOrder(lines[..n], parse);
      ParsedLineMeaning(lines[n], parse);
      places := if ParsedLine(lines[n], parse) != [] then front + [n] else front;
      hide ParsedLine;
      PlacesStep(lines, parse, front, n);
    }
  }

  lemma ParsedLineMeaning<A>(line: string, parse: string -> Option<A>)
    ensures
      var text, r := TrimSpace(line), ParsedLine(line, parse);
      if text != "" && parse(text).Some? then |r| == 1 && Some(r[0]) == parse(text) else r == []
  {
    hide TrimSpace;
  }

  lemma PlacesStep<A>(lines: seq<string>, parse: string -> Option<A>, front: seq<nat>, n: nat)
    requires |lines| == n + 1 && AlertPlaces(lines[..n], parse, front)
    ensures
      var text := TrimSpace(lines[n]);
      AlertPlaces(lines, parse, if text != "" && parse(text).Some? then front + [n] else front)
    ensures forall i :: 0 <= i < |front| ==> front[i] < n && lines[..n][front[i]] == lines[front[i]]
  {
    hide TrimSpace;
    AscendsMore(front, n);
  }

  lemma {:induction false} ParsedOfAppended<A>(a: seq<string>, b: seq<string>, parse: string -> Option<A>)
    ensures Parsed(a + b, parse) == Parsed(a, parse) + Parsed(b, parse)
    decreases |b|
  {
    if b == [] {
      assert a + b == a;
    } else {
      hide Parsed, ParsedLine;
      var n := |b| - 1;
      ParsedOfAppended(a, b[..n], parse);
      ParsedStep(b, parse);
      ParsedStep(a + b, parse);
      LastOfAppended(a, b);
      Assoc(Parsed(a, parse), Parsed(b[..n], parse), ParsedLine(b[n], parse));
    }
  }

  lemma LastOfAppended<T>(a: seq<T>, b: seq<T>)
    requires b != []
    ensures var n := |b| - 1; (a + b)[..|a + b| - 1] == a + b[..n] && (a + b)[|a + b| - 1] == b[n]
  {
  }

  lemma ParsedStep<A>(lines: seq<string>, parse: string -> Option<A>)
    requires lines != []
    ensures var n := |lines| - 1; Parsed(lines, parse) == Parsed(lines[..n], parse) + ParsedLine(lines[n], parse)
  {
    hide ParsedLine;
  }

  // ----- importing -----

  /** The alert table, and how many batch inserts have been tried on it. */
  datatype Db<A> = Db(stored: seq<A>, attempts: nat)

  datatype Importing<A> = Importing(db: Db<A>, batch: seq<A>)

  /** Inserting the batch: all of it or, on a failure, none; a failed batch is kept. */
  function Flush<A>(s: Importing<A>, fails: nat -> bool): Importing<A> {
    if s.batch == [] then s
    else if fails(s.db.attempts) then s.(db := s.db.(attempts := s.db.attempts + 1))
    else Importing(Db(s.db.stored + s.batch, s.db.attempts + 1), [])
  }

  function TakeLine<A>(s: Importing<A>, line: string, parse: string -> Option<A>, fails: nat -> bool): Importing<A> {
    var got := ParsedLine(line, parse);
    if got == [] then s
    else
      var s' := s.(batch := s.batch + got);
      if |s'.batch| >= BATCH then Flush(s', fails) else s'
  }

  function TakeLines<A>(s: Importing<A>, lines: seq<string>, parse: string -> Option<A>, fails: nat -> bool): Importing<A> {
    if lines == [] then s
    else TakeLine(TakeLines(s, lines[..|lines| - 1], parse, fails), lines[|lines| - 1], parse, fails)
  }

  function Imported<A>(db: Db<A>, text: string, parse: string -> Option<A>, fails: nat -> bool): Importing<A> {
    Flush(TakeLines(Importing(db, []), Good(Lines(text)), parse, fails), fails)
  }

  /** The last insert of the import was tried and failed. */
  predicate EndsFailing<A>(before: nat, s: Importing<A>, fails: nat -> bool) {
    s.db.attempts > before && fails(s.db.attempts - 1)
  }

  /** At every point of an import, stored and batch together are all that was parsed. */
  lemma {:induction false} NothingDropped<A>(db: Db<A>, lines: seq<string>, parse: string -> Option<A>, fails: nat -> bool)
    ensures
      var s := TakeLines(Importing(db, []), lines, parse, fails);
      && s.db.stored + s.batch == db.stored + Parsed(lines, parse)
      && db.stored <= s.db.stored && s.db.attempts >= db.attempts
      && (EndsFailing(db.attempts, s, fails) ==> s.batch != [])
  {
    hide ParsedLine;
    if lines != [] {
      var front := lines[..|lines| - 1];
      NothingDropped(db, front, parse, fails);
      var s := TakeLines(Importing(db, []), front, parse, fails);
      var got := ParsedLine(lines[|lines| - 1], parse);
      var s' := s.(batch := s.batch + got);
      assert s'.db.stored + s'.batch == (s.db.stored + s.batch) + got;
      assert db.stored + Parsed(lines, parse) == (db.stored + Parsed(front, parse)) + got;
      assert got == [] ==> s'.batch == s.batch;
    }
  }

  /** While no insert fails, a batch is inserted with every 256th alert. */
  lemma {:induction false} BatchesOf256<A>(db: Db<A>, lines: seq<string>, parse: string -> Option<A>, fails: nat -> bool)
    requires forall k :: !fails(k)
    ensures
      var s, n := TakeLines(Importing(db, []), lines, parse, fails), |Parsed(lines, parse)|;
      |s.batch| == n % 256 && s.db.attempts == db.attempts + n / 256
  {
    if lines != [] {
      var n := |lines| - 1;
      BatchesOf256(db, lines[..n], parse, fails);
      ParsedLineMeaning(lines[n], parse);
      OneMore(|Parsed(lines[..n], parse)|);
      hide ParsedLine;
    }
  }

  lemma OneMore(n: nat)
    ensures n % 256 < 255 ==> (n + 1) % 256 == n % 256 + 1 && (n + 1) / 256 == n / 256
    ensures n % 256 == 255 ==> (n + 1) % 256 == 0 && (n + 1) / 256 == n / 256 + 1
  {
  }

  /** An import stores a prefix of what it parses: all of it exactly when its last insert did not
      fail. */
  lemma ImportStores<A>(db: Db<A>, text: string, parse: string -> Option<A>, fails: nat -> bool)
    ensures
      var s := Imported(db, text, parse, fails);
      && s.db.stored + s.batch == db.stored + Parsed(Good(Lines(text)), parse)
      && db.stored <= s.db.stored && s.db.attempts >= db.attempts
      && (s.batch == [] <==> !EndsFailing(db.attempts, s, fails))
  {
    NothingDropped(db, Good(Lines(text)), parse, fails);
    hide TakeLines, Good, Lines, Parsed;
  }

  // ----- reading what is available -----

  datatype TailState<A> = TailState(offset: nat, db: Db<A>)

  /** What a read consumes of the bytes behind the offset. */
  function Complete(buf: string, final: bool): (r: string)
    ensures r <= buf && (!final ==> Whole(r))
  {
    if final then buf else buf[..LastNewline(buf) + 1]
  }

  function Start(offset: nat, file: string): (r: nat)
    ensures r <= |file|
  {
    if |file| < offset then 0 else offset
  }

  function Chunk(offset: nat, file: string, final: bool): string {
    Complete(file[Start(offset, file)..], final)
  }

  function Read<A>(st: TailState<A>, file: string, final: bool, parse: string -> Option<A>, fails: nat -> bool): TailState<A> {
    var chunk := Chunk(st.offset, file, final);
    var o := Start(st.offset, file);
    TailState(if TooLong(Lines(chunk)) then o else o + |chunk|,
              if chunk == "" then st.db else Imported(st.db, chunk, parse, fails).db)
  }

  lemma ReadIs<A>(st: TailState<A>, file: string, final: bool, parse: string -> Option<A>, fails: nat -> bool)
    ensures
      var chunk, o, now := Chunk(st.offset, file, final), Start(st.offset, file), Read(st, file, final, parse, fails);
      && (chunk == "" ==> now == TailState(o, st.db) && !TooLong(Lines(chunk)))
      && (chunk != "" ==>
            now == TailState(if TooLong(Lines(chunk)) then o else o + |chunk|, Imported(st.db, chunk, parse, fails).db))
  {
    hide Imported;
  }

  /** Reading each content in turn. */
  function ReadAll<A>(st: TailState<A>, contents: seq<string>, parse: string -> Option<A>, fails: nat -> bool): TailState<A> {
    if contents == [] then st
    else Read(ReadAll(st, contents[..|contents| - 1], parse, fails), contents[|contents| - 1], false, parse, fails)
  }

  class AlertTailer<A> {
    const parse: string -> Option<A>
    /** Which of the batch inserts fail, by their number. */
    const fails: nat -> bool
    var offset: nat
    var db: Db<A>

    constructor (parse: string -> Option<A>, fails: nat -> bool, existing: string, startExistingAtEnd: bool)
      ensures this.parse == parse && this.fails == fails && db == Db([], 0)
      ensures offset == if startExistingAtEnd then |existing| else 0
    {
      this.parse, this.fails := parse, fails;
      offset := if startExistingAtEnd then |existing| else 0;
      db := Db([], 0);
    }

    function State(): TailState<A>
      reads this
    {
      TailState(offset, db)
    }

    method InsertBatch(batch: seq<A>) returns (rest: seq<A>, imported: nat)
      modifies this`db
      ensures Importing(db, rest) == Flush(Importing(old(db), batch), fails)
      ensures |db.stored| == |old(db.stored)| + imported
    {
      if batch == [] { return batch, 0; }
      if fails(db.attempts) {
        db := db.(attempts := db.attempts + 1);
        return batch, 0;
      }
      db := Db(db.stored + batch, db.attempts + 1);
      return [], |batch|;
    }

    method ImportLine(batch: seq<A>, text: string) returns (rest: seq<A>, imported: nat)
      modifies this`db
      ensures Importing(db, rest) == TakeLine(Importing(old(db), batch), text, parse, fails)
      ensures |db.stored| == |old(db.stored)| + imported
    {
      var line := TrimSpace(text);
      if line == "" { return batch, 0; }
      var alert := parse(line);
      if alert.None? { return batch, 0; }
      rest, imported := batch + [alert.value], 0;
      if |rest| >= BATCH {
        rest, imported := InsertBatch(rest);
      }
    }

    method ImportLines(text: string) returns (imported: nat, tooLong: bool)
      modifies this`db
      ensures db == Imported(old(db), text, parse, fails).db
      ensures |db.stored| == |old(db.stored)| + imported
      ensures tooLong == TooLong(Lines(text))
    {
      var lines := Lines(text);
      GoodIsAll(lines);
      GoodLines(lines);
      hide Lines, Parsed, Good, TakeLine, Flush, TooLong;
      ghost var was := Importing(db, []);
      var batch: seq<A>, i := [], 0;
      imported := 0;
      while i < |lines| && |lines[i]| < MAX_LINE
        invariant i <= |Good(lines)| && |db.stored| == |was.db.stored| + imported
        invariant Importing(db, batch) == TakeLines(was, lines[..i], parse, fails)
      {
        assert lines[..i + 1][..i] == lines[..i];
        var n;
        batch, n := ImportLine(batch, lines[i]);
        imported := imported + n;
        i := i + 1;
      }
      assert lines[..i] == Good(lines);
      var n;
      batch, n := InsertBatch(batch);
      imported := imported + n;
      tooLong := i < |lines|;
    }

    method ReadAvailable(file: string, final: bool) returns (imported: nat, tooLong: bool)
      modifies this
      ensures State() == Read(old(State()), file, final, parse, fails)
      ensures |db.stored| == |old(db.stored)| + imported
      ensures tooLong == TooLong(Lines(Chunk(old(offset), file, final)))
    {
      ReadIs(State(), file, final, parse, fails);
      hide Read, Imported, Lines, TooLong, LastNewline;
      if |file| < offset {
        offset := 0;
      }
      if |file| <= offset {
        return 0, false;
      }
      var buf := file[offset..];
      var lastNewline := LastNewline(buf);
      if lastNewline < 0 {
        if !final { return 0, false; }
        lastNewline := |buf| - 1;
      }
      var complete := buf[..lastNewline + 1];
      if final {
        complete := buf;
      }
      imported, tooLong := ImportLines(complete);
      if tooLong { return; }
      offset := offset + |complete|;
    }

    /** One read per tick, and a last one that also takes a line without its newline. */
    method Tail(contents: seq<string>, last: string)
      modifies this
      ensures State() == Read(ReadAll(old(State()), contents, parse, fails), last, true, parse, fails)
    {
      hide Read;
      ghost var st := State();
      for i := 0 to |contents|
        invariant State() == ReadAll(st, contents[..i], parse, fails)
      {
        assert contents[..i + 1][..i] == contents[..i];
        var n, err := ReadAvailable(contents[i], false);
      }
      assert contents[..|contents|] == contents;
      var n, err := ReadAvailable(last, true);
    }
  }

  lemma {:induction false} GoodLines(lines: seq<string>)
    ensures forall i :: 0 <= i < |Good(lines)| ==> |lines[i]| < MAX_LINE
    ensures |Good(lines)| < |lines| ==> |lines[|Good(lines)|]| >= MAX_LINE
    ensures lines[..|Good(lines)|] == Good(lines)
  {
    if lines != [] && |lines[0]| < MAX_LINE {
      GoodLines(lines[1..]);
      assert forall i :: 0 < i < |lines| ==> lines[i] == lines[1..][i - 1];
    }
  }

  // ----- one read -----

  /** `chunk` is what a read takes of the bytes behind its start: everything at the end of the run,
      otherwise everything up to the last newline. */
  ghost predicate Takes(buf: string, final: bool, chunk: string) {
    chunk <= buf && if final then chunk == buf else Whole(chunk) && '\n' !in buf[|chunk|..]
  }

  lemma CompleteTakes(buf: string, final: bool)
    ensures Takes(buf, final, Complete(buf, final))
  {
    if !final {
      NoneBehind(buf);
    }
  }

  /** A read of any file, a truncated one too: it starts at the offset, or at 0 when the file has
      become shorter than that. Of the lines it takes it stores a prefix of the alerts before the
      first that is too long, all of them exactly when its last insert did not fail. The offset
      ends behind what was taken, or where the read started when a line was too long. */
  lemma ReadMeaning<A>(st: TailState<A>, file: string, final: bool, parse: string -> Option<A>, fails: nat -> bool)
      returns (chunk: string)
    ensures
      var from := if |file| < st.offset then 0 else st.offset;
      var now := Read(st, file, final, parse, fails);
      var alerts := Parsed(Good(Lines(chunk)), parse);
      && Takes(file[from..], final, chunk)
      && now.offset == (if TooLong(Lines(chunk)) then from else from + |chunk|)
      && st.db.stored <= now.db.stored <= st.db.stored + alerts
      && (now.db.stored == st.db.stored + alerts <==> Settles(st.db, chunk, parse, fails))
  {
    var from := if |file| < st.offset then 0 else st.offset;
    chunk := Complete(file[from..], final);
    CompleteTakes(file[from..], final);
    assert Chunk(st.offset, file, final) == chunk;
    ReadIs(st, file, final, parse, fails);
    if chunk == "" {
      NothingImported(st.db.stored, parse);
    } else {
      ImportStores(st.db, chunk, parse, fails);
      hide Lines, Good, Parsed, Imported, TooLong, Takes, Complete, Chunk, Read;
      var s := Imported(st.db, chunk, parse, fails);
      AllOrLess(s.db.stored, s.batch);
    }
  }

  lemma NothingImported<A>(stored: seq<A>, parse: string -> Option<A>)
    ensures stored + Parsed(Good(Lines("")), parse) == stored
  {
  }

  lemma AllOrLess<A>(stored: seq<A>, batch: seq<A>)
    ensures stored == stored + batch <==> batch == []
    ensures stored <= stored + batch
  {
    assert |stored + batch| == |stored| + |batch|;
  }

  // ----- whole runs -----

  /** Each content continues the one before it. */
  predicate Growing(contents: seq<string>, last: string) {
    && (forall i :: 0 <= i < |contents| ==> contents[i] <= last)
    && (forall i, j :: 0 <= i < j < |contents| ==> contents[i] <= contents[j])
  }

  predicate Settles<A>(db: Db<A>, chunk: string, parse: string -> Option<A>, fails: nat -> bool) {
    chunk == "" || !EndsFailing(db.attempts, Imported(db, chunk, parse, fails), fails)
  }

  /** No read of the run ends on a failed insert. */
  predicate AllSettle<A>(st: TailState<A>, contents: seq<string>, parse: string -> Option<A>, fails: nat -> bool) {
    contents == [] ||
    var front := contents[..|contents| - 1];
    var now := ReadAll(st, front, parse, fails);
    AllSettle(st, front, parse, fails) && Settles(now.db, Chunk(now.offset, contents[|contents| - 1], false), parse, fails)
  }

  /** What a read adds to the table, when none of its lines is too long. */
  lemma ReadStores<A>(db: Db<A>, chunk: string, parse: string -> Option<A>, fails: nat -> bool)
    requires !TooLong(Lines(chunk))
    ensures
      var now := if chunk == "" then db else Imported(db, chunk, parse, fails).db;
      && (Settles(db, chunk, parse, fails) ==> now.stored == db.stored + Parsed(Lines(chunk), parse))
      && (!Settles(db, chunk, parse, fails) ==> |now.stored| < |db.stored + Parsed(Lines(chunk), parse)|)
  {
    if chunk != "" {
      GoodIsAll(Lines(chunk));
      ImportStores(db, chunk, parse, fails);
      hide Lines, Good, Parsed, Imported;
      var s := Imported(db, chunk, parse, fails);
      assert s.batch == [] ==> s.db.stored + s.batch == s.db.stored;
    }
  }

  lemma {:induction false} LongInAppended(a: seq<string>, b: seq<string>)
    ensures TooLong(a + b) <==> TooLong(a) || TooLong(b)
  {
    if TooLong(b) {
      var i :| 0 <= i < |b| && |b[i]| >= MAX_LINE;
      assert (a + b)[|a| + i] == b[i];
    }
    if TooLong(a) {
      var i :| 0 <= i < |a| && |a[i]| >= MAX_LINE;
      assert (a + b)[i] == a[i];
    }
  }

  /** A whole chunk of a text: its lines are among the text's, in their place. */
  lemma ChunkLines(done: string, chunk: string, rest: string)
    requires Whole(done) && Whole(chunk)
    ensures Whole(done + chunk)
    ensures Lines(done + chunk) == Lines(done) + Lines(chunk)
    ensures TooLong(Lines(chunk)) ==> TooLong(Lines(done + chunk + rest))
  {
    hide Lines, TooLong;
    LinesOfAppended(done, chunk);
    LinesOfAppended(done + chunk, rest);
    LongInAppended(Lines(done), Lines(chunk));
    LongInAppended(Lines(done + chunk), Lines(rest));
  }

  ghost predicate Fits(offset: nat, contents: seq<string>, last: string) {
    Growing(contents, last) && offset <= |last| && forall i :: 0 <= i < |contents| ==> offset <= |contents[i]|
  }

  /** After the polls, exactly the complete lines up to the offset have been consumed once. */
  ghost predicate Consumed<A>(st: TailState<A>, now: TailState<A>, settled: bool, last: string, parse: string -> Option<A>) {
    && st.offset <= now.offset <= |last| && Whole(last[st.offset..now.offset])
    && Stored(st.db.stored, Lines(last[st.offset..now.offset]), now.db.stored, settled, parse)
  }

  /** All the alerts of the lines were added to the table, or not all of them. */
  ghost predicate Stored<A>(start: seq<A>, lines: seq<string>, now: seq<A>, settled: bool, parse: string -> Option<A>) {
    var all := start + Parsed(lines, parse);
    if settled then now == all else |now| < |all|
  }

  lemma ConsumeMore<A>(st: TailState<A>, now: TailState<A>, settled: bool, last: string, chunk: string, parse: string -> Option<A>, fails: nat -> bool)
    requires Consumed(st, now, settled, last, parse) && Whole(chunk) && chunk <= last[now.offset..]
    requires !TooLong(Lines(last[st.offset..]))
    ensures !TooLong(Lines(chunk))
    ensures
      var db := if chunk == "" then now.db else Imported(now.db, chunk, parse, fails).db;
      Consumed(st, TailState(now.offset + |chunk|, db), settled && Settles(now.db, chunk, parse, fails), last, parse)
  {
    hide Lines, Parsed, Imported, TooLong, Settles, Whole, Stored;
    var done, rest := Slices(last, st.offset, now.offset, chunk);
    ChunkLines(done, chunk, rest);
    ConsumeWhole(st, now, settled, last, done, chunk, parse, fails);
  }

  lemma ConsumeWhole<A>(st: TailState<A>, now: TailState<A>, settled: bool, last: string, done: string, chunk: string, parse: string -> Option<A>, fails: nat -> bool)
    requires Consumed(st, now, settled, last, parse) && done == last[st.offset..now.offset]
    requires now.offset + |chunk| <= |last| && last[st.offset..now.offset + |chunk|] == done + chunk
    requires Whole(done + chunk) && !TooLong(Lines(chunk)) && Lines(done + chunk) == Lines(done) + Lines(chunk)
    ensures
      var db := if chunk == "" then now.db else Imported(now.db, chunk, parse, fails).db;
      Consumed(st, TailState(now.offset + |chunk|, db), settled && Settles(now.db, chunk, parse, fails), last, parse)
  {
    hide Lines, Parsed, Imported, TooLong, Settles, Whole, Stored;
    ReadStores(now.db, chunk, parse, fails);
    var db := if chunk == "" then now.db else Imported(now.db, chunk, parse, fails).db;
    StoredMore(st.db.stored, Lines(done), now.db.stored, settled, Lines(chunk), db.stored, Settles(now.db, chunk, parse, fails), parse);
    hide Consumed;
    IsConsumed(st, TailState(now.offset + |chunk|, db), settled && Settles(now.db, chunk, parse, fails), last, done + chunk, parse);
  }

  lemma IsConsumed<A>(st: TailState<A>, now: TailState<A>, settled: bool, last: string, done: string, parse: string -> Option<A>)
    requires st.offset <= now.offset <= |last| && last[st.offset..now.offset] == done && Whole(done)
    requires Stored(st.db.stored, Lines(done), now.db.stored, settled, parse)
    ensures Consumed(st, now, settled, last, parse)
  {
    hide Lines, Parsed, Whole;
  }

  lemma StoredMore<A>(start: seq<A>, p: seq<string>, now: seq<A>, settled: bool, q: seq<string>, next: seq<A>, ok: bool, parse: string -> Option<A>)
    requires Stored(start, p, now, settled, parse)
    requires if ok then next == now + Parsed(q, parse) else |next| < |now + Parsed(q, parse)|
    ensures Stored(start, p + q, next, settled && ok, parse)
  {
    hide Parsed;
    ParsedOfAppended(p, q, parse);
    StoreMore(start, Parsed(p, parse), now, settled, Parsed(q, parse), next, ok);
  }

  lemma Slices(last: string, from: nat, at: nat, chunk: string) returns (done: string, rest: string)
    requires from <= at <= |last| && chunk <= last[at..]
    ensures done == last[from..at] && last[from..] == done + chunk + rest && last[from..at + |chunk|] == done + chunk
    ensures at + |chunk| <= |last|
  {
    done, rest := last[from..at], last[at + |chunk|..];
    assert last[at..] == chunk + rest;
  }

  /** Stored alerts against parsed ones: equal after two reads exactly when they are after each. */
  lemma StoreMore<A>(start: seq<A>, p: seq<A>, now: seq<A>, settled: bool, q: seq<A>, next: seq<A>, ok: bool)
    requires if settled then now == start + p else |now| < |start + p|
    requires if ok then next == now + q else |next| < |now + q|
    ensures if settled && ok then next == start + (p + q) else |next| < |start + (p + q)|
  {
    Assoc(start, p, q);
  }

  lemma {:induction false} PollsStore<A>(st: TailState<A>, contents: seq<string>, last: string, parse: string -> Option<A>, fails: nat -> bool)
    requires Fits(st.offset, contents, last) && !TooLong(Lines(last[st.offset..]))
    ensures
      var now := ReadAll(st, contents, parse, fails);
      && Consumed(st, now, AllSettle(st, contents, parse, fails), last, parse)
      && (contents != [] ==> now.offset <= |contents[|contents| - 1]|)
  {
    hide Lines, Parsed, Imported, TooLong, Settles;
    if contents == [] {
      assert last[st.offset..st.offset] == "";
      NoLines(st.db.stored, parse);
    } else {
      var n := |contents| - 1;
      var front, c := contents[..n], contents[n];
      FitsFront(st.offset, contents, last);
      hide Fits;
      PollsStore(st, front, last, parse, fails);
      assert st.offset <= |last|;
      var now := ReadAll(st, front, parse, fails);
      hide Read, Consumed, Chunk;
      PollStep(st, now, AllSettle(st, front, parse, fails), c, last, parse, fails);
    }
  }

  lemma PollStep<A>(st: TailState<A>, now: TailState<A>, settled: bool, c: string, last: string, parse: string -> Option<A>, fails: nat -> bool)
    requires Consumed(st, now, settled, last, parse) && now.offset <= |c| && c <= last
    requires !TooLong(Lines(last[st.offset..]))
    ensures
      var next := Read(now, c, false, parse, fails);
      && Consumed(st, next, settled && Settles(now.db, Chunk(now.offset, c, false), parse, fails), last, parse)
      && next.offset <= |c|
  {
    hide Lines, Parsed, Imported, TooLong, Settles;
    var chunk := Chunk(now.offset, c, false);
    NextChunk(now.offset, c, last);
    hide Chunk, Whole;
    ConsumeMore(st, now, settled, last, chunk, parse, fails);
  }

  lemma FitsFront(offset: nat, contents: seq<string>, last: string)
    requires Fits(offset, contents, last) && contents != []
    ensures
      var n := |contents| - 1;
      var front := contents[..n];
      && Fits(offset, front, last) && contents[n] <= last && offset <= |contents[n]|
      && (n > 0 ==> |front[n - 1]| <= |contents[n]|)
  {
  }

  lemma NextChunk(offset: nat, file: string, last: string)
    requires offset <= |file| && file <= last
    ensures Start(offset, file) == offset
    ensures var chunk := Chunk(offset, file, false);
            Whole(chunk) && chunk <= last[offset..] && offset + |chunk| <= |file|
  {
    assert file[offset..] <= last[offset..];
  }

  lemma NoLines<A>(stored: seq<A>, parse: string -> Option<A>)
    ensures stored + Parsed(Lines(""), parse) == stored
  {
  }

  // ----- what a failed insert can cost -----

  function Flat<A>(parts: seq<seq<A>>): seq<A> {
    if parts == [] then [] else Flat(parts[..|parts| - 1]) + parts[|parts| - 1]
  }

  /** The alerts a read finds in the bytes it consumes. */
  function Alerts<A>(offset: nat, file: string, final: bool, parse: string -> Option<A>): seq<A> {
    Parsed(Good(Lines(Chunk(offset, file, final))), parse)
  }

  /** The alerts of each read of a run, read by read. */
  function Reads<A>(st: TailState<A>, contents: seq<string>, parse: string -> Option<A>, fails: nat -> bool): seq<seq<A>> {
    if contents == [] then []
    else
      var front := contents[..|contents| - 1];
      Reads(st, front, parse, fails)
      + [Alerts(ReadAll(st, front, parse, fails).offset, contents[|contents| - 1], false, parse)]
  }

  /** The table is what it was at first, followed by a prefix of each read's alerts in turn. */
  ghost predicate Prefixes<A(!new)>(start: seq<A>, parts: seq<seq<A>>, now: seq<A>) {
    if parts == [] then now == start
    else exists mid :: Prefixes(start, parts[..|parts| - 1], mid) && mid <= now && now[|mid|..] <= parts[|parts| - 1]
  }

  lemma PrefixesMore<A(!new)>(start: seq<A>, parts: seq<seq<A>>, mid: seq<A>, read: seq<A>, now: seq<A>)
    requires Prefixes(start, parts, mid) && mid <= now && now[|mid|..] <= read
    ensures Prefixes(start, parts + [read], now)
  {
    assert (parts + [read])[..|parts|] == parts;
  }

  lemma FlatMore<A>(parts: seq<seq<A>>, read: seq<A>)
    ensures Flat(parts + [read]) == Flat(parts) + read
  {
    assert (parts + [read])[..|parts|] == parts;
  }

  /** Whatever inserts fail, a read adds a prefix of its own alerts and nothing else. */
  lemma ReadKeepsPrefix<A>(st: TailState<A>, file: string, final: bool, parse: string -> Option<A>, fails: nat -> bool)
    ensures
      var now := Read(st, file, final, parse, fails).db.stored;
      st.db.stored <= now && now[|st.db.stored|..] <= Alerts(st.offset, file, final, parse)
  {
    var chunk := Chunk(st.offset, file, final);
    if chunk != "" {
      ImportStores(st.db, chunk, parse, fails);
      hide Lines, Good, Parsed, Imported;
      TailPrefix(st.db.stored, Parsed(Good(Lines(chunk)), parse), Imported(st.db, chunk, parse, fails).db.stored);
    }
  }

  lemma TailPrefix<A>(was: seq<A>, all: seq<A>, now: seq<A>)
    requires was <= now <= was + all
    ensures now[|was|..] <= all
  {
    assert forall i :: 0 <= i < |now| - |was| ==> now[|was|..][i] == (was + all)[|was| + i];
  }

  /** Any polls of any contents, truncated and long-lined ones too: what an insert that failed
      leaves out of the table is a tail of one read's alerts. */
  lemma {:induction false} PollsKeepPrefixes<A(!new)>(st: TailState<A>, contents: seq<string>, parse: string -> Option<A>, fails: nat -> bool)
    ensures Prefixes(st.db.stored, Reads(st, contents, parse, fails), ReadAll(st, contents, parse, fails).db.stored)
  {
    hide Read, Alerts;
    if contents != [] {
      var front, c := contents[..|contents| - 1], contents[|contents| - 1];
      PollsKeepPrefixes(st, front, parse, fails);
      var now := ReadAll(st, front, parse, fails);
      ReadKeepsPrefix(now, c, false, parse, fails);
      PrefixesMore(st.db.stored, Reads(st, front, parse, fails), now.db.stored,
                   Alerts(now.offset, c, false, parse), Read(now, c, false, parse, fails).db.stored);
    }
  }

  /** The reads of a run over a growing file split the alerts of its lines among them. */
  lemma {:induction false} ReadsSplit<A>(st: TailState<A>, contents: seq<string>, last: string, parse: string -> Option<A>, fails: nat -> bool)
    requires Fits(st.offset, contents, last) && !TooLong(Lines(last[st.offset..]))
    ensures
      var now := ReadAll(st, contents, parse, fails);
      && st.offset <= now.offset <= |last|
      && Flat(Reads(st, contents, parse, fails)) == Parsed(Lines(last[st.offset..now.offset]), parse)
  {
    hide Lines, Parsed, Imported, TooLong, Settles, Alerts, Flat;
    PollsStore(st, contents, last, parse, fails);
    if contents == [] {
      assert last[st.offset..st.offset] == "";
      NothingRead(parse);
    } else {
      var n := |contents| - 1;
      var front, c := contents[..n], contents[n];
      FitsFront(st.offset, contents, last);
      PollsStore(st, front, last, parse, fails);
      ReadsSplit(st, front, last, parse, fails);
      hide Fits;
      var now := ReadAll(st, front, parse, fails);
      FlatMore(Reads(st, front, parse, fails), Alerts(now.offset, c, false, parse));
      hide Read, Consumed, Chunk;
      SplitStep(st, now, AllSettle(st, front, parse, fails), c, last, parse, fails);
    }
  }

  lemma NothingRead<A>(parse: string -> Option<A>)
    ensures Flat<A>([]) == Parsed(Lines(""), parse)
  {
  }

  lemma SplitStep<A>(st: TailState<A>, now: TailState<A>, settled: bool, c: string, last: string, parse: string -> Option<A>, fails: nat -> bool)
    requires Consumed(st, now, settled, last, parse) && now.offset <= |c| && c <= last
    requires !TooLong(Lines(last[st.offset..]))
    ensures
      var next := Read(now, c, false, parse, fails);
      && now.offset <= next.offset <= |last|
      && Parsed(Lines(last[st.offset..next.offset]), parse)
         == Parsed(Lines(last[st.offset..now.offset]), parse) + Alerts(now.offset, c, false, parse)
  {
    hide Lines, Parsed, Imported, TooLong, Settles, Good;
    var chunk := Chunk(now.offset, c, false);
    NextChunk(now.offset, c, last);
    hide Chunk, Whole;
    var done, rest := Slices(last, st.offset, now.offset, chunk);
    ChunkLines(done, chunk, rest);
    ParsedOfAppended(Lines(done), Lines(chunk), parse);
    GoodIsAll(Lines(chunk));
  }

  /** After any polls exactly the complete lines up to the offset have been consumed, once and in
      order: the reads split their alerts among them, the table gains a prefix of each read's alerts,
      and it gains all of them exactly when no read ended on a failed insert. */
  lemma PollsConsume<A(!new)>(st: TailState<A>, contents: seq<string>, last: string, parse: string -> Option<A>, fails: nat -> bool)
    requires Fits(st.offset, contents, last) && !TooLong(Lines(last[st.offset..]))
    ensures
      var now := ReadAll(st, contents, parse, fails);
      && st.offset <= now.offset <= |last| && Whole(last[st.offset..now.offset])
      && Flat(Reads(st, contents, parse, fails)) == Parsed(Lines(last[st.offset..now.offset]), parse)
      && Prefixes(st.db.stored, Reads(st, contents, parse, fails), now.db.stored)
      && (now.db.stored == st.db.stored + Parsed(Lines(last[st.offset..now.offset]), parse) <==> AllSettle(st, contents, parse, fails))
  {
    PollsStore(st, contents, last, parse, fails);
    ReadsSplit(st, contents, last, parse, fails);
    PollsKeepPrefixes(st, contents, parse, fails);
    hide Fits, ReadAll, Reads, AllSettle, Lines, Parsed, TooLong, Flat, Prefixes, Whole;
  }

  /** The alerts of the polls and of the final read. */
  function AllReads<A>(st: TailState<A>, contents: seq<string>, last: string, parse: string -> Option<A>, fails: nat -> bool): seq<seq<A>> {
    Reads(st, contents, parse, fails) + [Alerts(ReadAll(st, contents, parse, fails).offset, last, true, parse)]
  }

  /** Whatever the chunks, a run over an append-only file consumes every line behind its starting
      offset once and in order: the reads split its alerts among them, the table gains a prefix of
      each read's alerts, and it gains all of them exactly when no read ended on a failed insert. */
  lemma ExactlyOnce<A(!new)>(st: TailState<A>, contents: seq<string>, last: string, parse: string -> Option<A>, fails: nat -> bool)
    requires Fits(st.offset, contents, last) && !TooLong(Lines(last[st.offset..]))
    ensures
      var now := ReadAll(st, contents, parse, fails);
      var end := Read(now, last, true, parse, fails);
      && end.offset == |last|
      && Flat(AllReads(st, contents, last, parse, fails)) == Parsed(Lines(last[st.offset..]), parse)
      && Prefixes(st.db.stored, AllReads(st, contents, last, parse, fails), end.db.stored)
      && (end.db.stored == st.db.stored + Parsed(Lines(last[st.offset..]), parse)
          <==> AllSettle(st, contents, parse, fails) && Settles(now.db, Chunk(now.offset, last, true), parse, fails))
  {
    PollsStore(st, contents, last, parse, fails);
    ReadsSplit(st, contents, last, parse, fails);
    PollsKeepPrefixes(st, contents, parse, fails);
    hide Lines, Parsed, Imported, TooLong, Settles, ReadAll, AllSettle, Read, Consumed, Chunk, Fits, Reads, Alerts, Flat, Prefixes;
    var now := ReadAll(st, contents, parse, fails);
    var read := Alerts(now.offset, last, true, parse);
    FinalRead(st, now, AllSettle(st, contents, parse, fails), last, parse, fails);
    FinalAlerts(st, now, AllSettle(st, contents, parse, fails), last, parse);
    FlatMore(Reads(st, contents, parse, fails), read);
    ReadKeepsPrefix(now, last, true, parse, fails);
    PrefixesMore(st.db.stored, Reads(st, contents, parse, fails), now.db.stored, read, Read(now, last, true, parse, fails).db.stored);
  }

  lemma FinalAlerts<A>(st: TailState<A>, now: TailState<A>, settled: bool, last: string, parse: string -> Option<A>)
    requires st.offset <= |last| && Consumed(st, now, settled, last, parse) && !TooLong(Lines(last[st.offset..]))
    ensures Parsed(Lines(last[st.offset..]), parse)
            == Parsed(Lines(last[st.offset..now.offset]), parse) + Alerts(now.offset, last, true, parse)
  {
    hide Lines, Parsed, TooLong, Whole, Good;
    var chunk := last[now.offset..];
    var done, rest := Slices(last, st.offset, now.offset, chunk);
    assert last[st.offset..now.offset + |chunk|] == last[st.offset..];
    LastChunk(done, chunk);
    ParsedOfAppended(Lines(done), Lines(chunk), parse);
    GoodIsAll(Lines(chunk));
  }

  lemma FinalRead<A>(st: TailState<A>, now: TailState<A>, settled: bool, last: string, parse: string -> Option<A>, fails: nat -> bool)
    requires st.offset <= |last| && Consumed(st, now, settled, last, parse) && !TooLong(Lines(last[st.offset..]))
    ensures
      var end := Read(now, last, true, parse, fails);
      && end.offset == |last|
      && (end.db.stored == st.db.stored + Parsed(Lines(last[st.offset..]), parse)
          <==> settled && Settles(now.db, Chunk(now.offset, last, true), parse, fails))
  {
    hide Lines, Parsed, Imported, TooLong, Settles, Whole;
    var chunk := last[now.offset..];
    var done, rest := Slices(last, st.offset, now.offset, chunk);
    assert last[st.offset..now.offset + |chunk|] == last[st.offset..];
    assert Stored(st.db.stored, Lines(done), now.db.stored, settled, parse);
    LastChunk(done, chunk);
    ReadStores(now.db, chunk, parse, fails);
    var db := if chunk == "" then now.db else Imported(now.db, chunk, parse, fails).db;
    assert Chunk(now.offset, last, true) == chunk && Read(now, last, true, parse, fails).db == db;
    StoredMore(st.db.stored, Lines(done), now.db.stored, settled, Lines(chunk), db.stored, Settles(now.db, chunk, parse, fails), parse);
  }

  lemma LastChunk(done: string, chunk: string)
    requires Whole(done)
    ensures Lines(done + chunk) == Lines(done) + Lines(chunk)
    ensures TooLong(Lines(chunk)) ==> TooLong(Lines(done + chunk))
  {
    hide Lines, TooLong;
    LinesOfAppended(done, chunk);
    LongInAppended(Lines(done), Lines(chunk));
  }

  // ----- a line that is too long -----

  /** A complete line that is too long stops the offset for good, however the file grows. */
  lemma {:induction false} LongLineSticks<A>(st: TailState<A>, first: string, contents: seq<string>, parse: string -> Option<A>, fails: nat -> bool)
    requires st.offset <= |first| && TooLong(Lines(Complete(first[st.offset..], false)))
    requires forall i :: 0 <= i < |contents| ==> first <= contents[i]
    ensures ReadAll(st, contents, parse, fails).offset == st.offset
  {
    hide Lines, Imported, TooLong, Complete;
    if contents != [] {
      var n := |contents| - 1;
      LongLineSticks(st, first, contents[..n], parse, fails);
      StillTooLong(first[st.offset..], contents[n][st.offset..]);
    }
  }

  lemma {:induction false} ReadAllAppended<A>(st: TailState<A>, a: seq<string>, b: seq<string>, parse: string -> Option<A>, fails: nat -> bool)
    ensures ReadAll(st, a + b, parse, fails) == ReadAll(ReadAll(st, a, parse, fails), b, parse, fails)
    decreases |b|
  {
    hide Read;
    if b == [] {
      assert a + b == a;
    } else {
      ReadAllAppended(st, a, b[..|b| - 1], parse, fails);
      assert (a + b)[..|a + b| - 1] == a + b[..|b| - 1];
    }
  }

  /** So does one that arrives during the polls: from poll `i`, which finds it complete, to any
      later poll `j` the offset stays. */
  lemma LongLineArrives<A>(st: TailState<A>, contents: seq<string>, i: nat, j: nat, parse: string -> Option<A>, fails: nat -> bool)
    requires i < |contents| && i <= j <= |contents| && forall k :: i <= k < |contents| ==> contents[i] <= contents[k]
    requires
      var at := ReadAll(st, contents[..i], parse, fails).offset;
      at <= |contents[i]| && TooLong(Lines(Complete(contents[i][at..], false)))
    ensures ReadAll(st, contents[..j], parse, fails).offset == ReadAll(st, contents[..i], parse, fails).offset
  {
    hide Lines, TooLong, Complete, ReadAll;
    assert contents[..i] + contents[i..j] == contents[..j];
    ReadAllAppended(st, contents[..i], contents[i..j], parse, fails);
    LongLineSticks(ReadAll(st, contents[..i], parse, fails), contents[i], contents[i..j], parse, fails);
  }

  /** What has been consumed are complete lines none of which is too long. */
  ghost predicate ConsumedFits(from: nat, offset: nat, last: string) {
    && from <= offset <= |last|
    && Whole(last[from..offset]) && !TooLong(Lines(last[from..offset]))
  }

  lemma {:induction false} PollsFit<A>(st: TailState<A>, contents: seq<string>, last: string, parse: string -> Option<A>, fails: nat -> bool)
    requires Fits(st.offset, contents, last)
    ensures
      var now := ReadAll(st, contents, parse, fails);
      && ConsumedFits(st.offset, now.offset, last)
      && (contents != [] ==> now.offset <= |contents[|contents| - 1]|)
  {
    hide Lines, Imported, TooLong;
    if contents == [] {
      assert last[st.offset..st.offset] == "";
      assert !TooLong(Lines("")) by { NothingTooLong(); }
    } else {
      var n := |contents| - 1;
      FitsFront(st.offset, contents, last);
      hide Fits;
      PollsFit(st, contents[..n], last, parse, fails);
      hide Read, ConsumedFits;
      FitStep(st.offset, ReadAll(st, contents[..n], parse, fails), contents[n], last, parse, fails);
    }
  }

  lemma NothingTooLong()
    ensures !TooLong(Lines(""))
  {
  }

  lemma FitStep<A>(from: nat, now: TailState<A>, c: string, last: string, parse: string -> Option<A>, fails: nat -> bool)
    requires ConsumedFits(from, now.offset, last) && now.offset <= |c| && c <= last
    ensures
      var next := Read(now, c, false, parse, fails);
      ConsumedFits(from, next.offset, last) && next.offset <= |c|
  {
    hide Lines, Imported, TooLong;
    var chunk := Chunk(now.offset, c, false);
    NextChunk(now.offset, c, last);
    hide Chunk;
    var done, rest := Slices(last, from, now.offset, chunk);
    ChunkLines(done, chunk, rest);
    LongInAppended(Lines(done), Lines(chunk));
  }

  /** The polls and the final read come to the end of the file exactly when no line behind the
      starting offset is too long, whenever that line arrives and whether it ends or not. */
  lemma ReachesEndExactly<A>(st: TailState<A>, contents: seq<string>, last: string, parse: string -> Option<A>, fails: nat -> bool)
    requires Fits(st.offset, contents, last)
    ensures Read(ReadAll(st, contents, parse, fails), last, true, parse, fails).offset == |last|
       <==> !TooLong(Lines(last[st.offset..]))
  {
    PollsFit(st, contents, last, parse, fails);
    hide Fits, ReadAll, Lines, TooLong, Imported;
    var now := ReadAll(st, contents, parse, fails);
    var chunk := last[now.offset..];
    assert Chunk(now.offset, last, true) == chunk;
    var done, rest := Slices(last, st.offset, now.offset, chunk);
    assert rest == "" && last[st.offset..] == done + chunk;
    LinesOfAppended(done, chunk);
    LongInAppended(Lines(done), Lines(chunk));
    if chunk == "" {
      NothingTooLong();
    }
  }

  lemma StillTooLong(a: string, b: string)
    requires a <= b && TooLong(Lines(Complete(a, false)))
    ensures TooLong(Lines(Complete(b, false)))
  {
    var x, y := Complete(a, false), Complete(b, false);
    if |x| > 0 {
      NoneBehind(b);
      assert b[|x| - 1] == '\n';
      assert LastNewline(b) >= |x| - 1;
      assert y == x + y[|x|..];
    }
    LinesOfAppended(x, y[|x|..]);
    LongInAppended(Lines(x), Lines(y[|x|..]));
  }

  /** Until then every read stores the alerts before that line once more. */
  lemma LongLineRepeats<A>(st: TailState<A>, file: string, parse: string -> Option<A>, fails: nat -> bool)
    requires forall n :: !fails(n)
    requires st.offset <= |file| && TooLong(Lines(Complete(file[st.offset..], false)))
    ensures
      var before := Parsed(Good(Lines(Complete(file[st.offset..], false))), parse);
      ReadAll(st, [file, file], parse, fails).db.stored == st.db.stored + before + before
  {
    var chunk := Complete(file[st.offset..], false);
    var s1 := Imported(st.db, chunk, parse, fails);
    ImportStores(st.db, chunk, parse, fails);
    ImportStores(s1.db, chunk, parse, fails);
    assert chunk != "";
    hide Imported, Good, Lines, TooLong, Parsed;
    assert [file, file][..1] == [file] && [file][..0] == [];
    assert ReadAll(st, [file], parse, fails) == Read(st, file, false, parse, fails);
    var s2 := Imported(s1.db, chunk, parse, fails);
    assert s1.db.stored + [] == s1.db.stored && s2.db.stored + [] == s2.db.stored;
    assert Read(st, file, false, parse, fails) == TailState(st.offset, s1.db);
  }

  // ----- alerts that are lost -----

  lemma {:induction false} NoneStored<A>(db: Db<A>, lines: seq<string>, parse: string -> Option<A>, fails: nat -> bool)
    requires forall n :: fails(n)
    ensures TakeLines(Importing(db, []), lines, parse, fails).db.stored == db.stored
  {
    hide ParsedLine;
    if lines != [] {
      NoneStored(db, lines[..|lines| - 1], parse, fails);
    }
  }

  /** While every insert fails, a read to the end stores nothing and still moves the offset. */
  lemma LostBatchCase<A>(st: TailState<A>, file: string, parse: string -> Option<A>, fails: nat -> bool)
    requires forall n :: fails(n)
    requires st.offset <= |file| && !TooLong(Lines(file[st.offset..]))
    ensures Read(st, file, true, parse, fails).db.stored == st.db.stored
    ensures Read(st, file, true, parse, fails).offset == |file|
  {
    var chunk := Chunk(st.offset, file, true);
    NoneStored(st.db, Good(Lines(chunk)), parse, fails);
    ReachesEndExactly(st, [], file, parse, fails);
    hide Lines, Good, TooLong, TakeLines;
  }
}
