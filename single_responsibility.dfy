/** The diary of the single-responsibility example: a journal that numbers
    its entries and renders itself as text. */
module SingleResponsibility {
  import Decimal

  /** The function-local `static int count` of `add_entry`, made explicit.
      There is one such counter for the whole program, shared by every
      journal, so it is an object of its own that each call reads and
      advances, not a field of a journal. */
  class EntryCounter {
    var count: nat

    /** The static is initialised to 1 before its first use. */
    constructor ()
      ensures count == 1
    {
      count := 1;
    }
  }

  /** An entry as `add_entry` stores it: the entry's number, a colon and a
      space, then the text. */
  function NumberedEntry(n: nat, text: string): (e: string)
    ensures |e| >= |text| + 3
    ensures e[|e| - |text| - 2..] == ": " + text
    ensures forall i :: 0 <= i < |e| - |text| - 2 ==> Decimal.IsDigit(e[i])
    ensures Decimal.Value(e[..|e| - |text| - 2]) == n
    ensures e[0] == '0' ==> n == 0 && |e| == |text| + 3
  {
    var digits := Decimal.ToString(n);
    Decimal.ValueOfToString(n);
    assert (digits + ": " + text)[..|digits|] == digits;
    digits + ": " + text
  }

  class Journal {
    var title: string
    var entries: seq<string>

    constructor (title: string)
      ensures this.title == title && entries == []
    {
      this.title := title;
      entries := [];
    }

    /** Appends the next numbered entry and advances the shared counter. */
    method AddEntry(counter: EntryCounter, entry: string)
      modifies this, counter
      ensures entries == old(entries) + [NumberedEntry(old(counter.count), entry)]
      ensures counter.count == old(counter.count) + 1
      ensures title == old(title)
    {
      var n := counter.count;
      counter.count := counter.count + 1;
      entries := entries + [Decimal.ToString(n) + ": " + entry];
    }

    /** Writes the journal line by line, as `operator<<` does on a stream. */
    method Write() returns (text: string)
      ensures text == Rendered(title, entries)
    {
      text := "Title: " + title + "\n";
      for i := 0 to |entries|
        invariant text == Rendered(title, entries[..i])
      {
        RenderedAppend(title, entries[..i], entries[i]);
        assert entries[..i + 1] == entries[..i] + [entries[i]];
        text := text + entries[i] + "\n";
      }
      assert entries[..|entries|] == entries;
    }
  }

  // ---------------------------------------------------------------------
  // The rendered text

  /** Each entry followed by a newline, in order. */
  function Lines(entries: seq<string>): (s: string)
    ensures s == [] <==> entries == []
    ensures entries != [] ==> |s| > |entries[0]| && s[..|entries[0]| + 1] == entries[0] + "\n"
  {
    if entries == [] then [] else entries[0] + "\n" + Lines(entries[1..])
  }

  /** The text written for a journal: a title line, then one line per entry. */
  function Rendered(title: string, entries: seq<string>): (text: string)
    ensures |text| >= |title| + 8
    ensures text[..|title| + 8] == "Title: " + title + "\n"
    ensures |text| == |title| + 8 <==> entries == []
  {
    "Title: " + title + "\n" + Lines(entries)
  }

  lemma {:induction false} LinesAppend(entries: seq<string>, e: string)
    ensures Lines(entries + [e]) == Lines(entries) + e + "\n"
  {
    if entries == [] {
      assert entries + [e] == [e];
      assert Lines([e]) == e + "\n" + Lines([]);
    } else {
      var head, tail := entries[0], entries[1..];
      assert (entries + [e])[1..] == tail + [e];
      LinesAppend(tail, e);
      calc {
        Lines(entries + [e]);
        head + "\n" + Lines(tail + [e]);
        head + "\n" + (Lines(tail) + e + "\n");
        (head + "\n" + Lines(tail)) + e + "\n";
      }
    }
  }

  /** Adding an entry only appends its line to the rendered text. */
  lemma {:induction false} RenderedAppend(title: string, entries: seq<string>, e: string)
    ensures Rendered(title, entries + [e]) == Rendered(title, entries) + e + "\n"
  {
    LinesAppend(entries, e);
  }

  function NewlineCount(s: string): nat {
    if s == [] then 0 else (if s[0] == '\n' then 1 else 0) + NewlineCount(s[1..])
  }

  predicate HasNoNewline(s: string) {
    forall i :: 0 <= i < |s| ==> s[i] != '\n'
  }

  lemma {:induction false} NewlineCountConcat(a: string, b: string)
    ensures NewlineCount(a + b) == NewlineCount(a) + NewlineCount(b)
  {
    if a == [] {
      assert a + b == b;
    } else {
      assert (a + b)[1..] == a[1..] + b;
      NewlineCountConcat(a[1..], b);
    }
  }

  lemma {:induction false} NoNewlineCount(s: string)
    requires HasNoNewline(s)
    ensures NewlineCount(s) == 0
  {
    if s != [] {
      NoNewlineCount(s[1..]);
    }
  }

  lemma {:induction false} LinesNewlineCount(entries: seq<string>)
    requires forall i :: 0 <= i < |entries| ==> HasNoNewline(entries[i])
    ensures NewlineCount(Lines(entries)) == |entries|
  {
    if entries != [] {
      LinesNewlineCount(entries[1..]);
      NoNewlineCount(entries[0]);
      NewlineCountConcat(entries[0], "\n");
      NewlineCountConcat(entries[0] + "\n", Lines(entries[1..]));
    }
  }

  /** One line for the title and one per entry. */
  lemma {:induction false} RenderedNewlineCount(title: string, entries: seq<string>)
    requires HasNoNewline(title)
    requires forall i :: 0 <= i < |entries| ==> HasNoNewline(entries[i])
    ensures NewlineCount(Rendered(title, entries)) == |entries| + 1
  {
    NoNewlineCount("Title: " + title);
    NewlineCountConcat("Title: " + title, "\n");
    NewlineCountConcat("Title: " + title + "\n", Lines(entries));
    LinesNewlineCount(entries);
  }

  // ---------------------------------------------------------------------
  // Reading the text back: splitting at newlines recovers the lines

  /** Splits newline-terminated text into its lines; `current` is the part
      of the line read so far. */
  function SplitLines(s: string, current: string): seq<string> {
    if s == [] then (if current == [] then [] else [current])
    else if s[0] == '\n' then [current] + SplitLines(s[1..], [])
    else SplitLines(s[1..], current + [s[0]])
  }

  lemma {:induction false} SplitLine(line: string, rest: string, current: string)
    requires HasNoNewline(line)
    ensures SplitLines(line + "\n" + rest, current) == [current + line] + SplitLines(rest, [])
  {
    if line == [] {
      assert line + "\n" + rest == "\n" + rest;
      assert ("\n" + rest)[1..] == rest;
      assert current + line == current;
    } else {
      assert (line + "\n" + rest)[1..] == line[1..] + "\n" + rest;
      SplitLine(line[1..], rest, current + [line[0]]);
      assert current + [line[0]] + line[1..] == current + line;
    }
  }

  lemma {:induction false} SplitLinesOfLines(entries: seq<string>)
    requires forall i :: 0 <= i < |entries| ==> HasNoNewline(entries[i])
    ensures SplitLines(Lines(entries), []) == entries
  {
    if entries != [] {
      SplitLine(entries[0], Lines(entries[1..]), []);
      SplitLinesOfLines(entries[1..]);
      assert [] + entries[0] == entries[0];
    }
  }

  /** The rendered text splits back into the title line and the entries. */
  lemma {:induction false} RenderedSplits(title: string, entries: seq<string>)
    requires HasNoNewline(title)
    requires forall i :: 0 <= i < |entries| ==> HasNoNewline(entries[i])
    ensures SplitLines(Rendered(title, entries), []) == ["Title: " + title] + entries
  {
    assert HasNoNewline("Title: " + title);
    SplitLine("Title: " + title, Lines(entries), []);
    SplitLinesOfLines(entries);
    assert [] + ("Title: " + title) == "Title: " + title;
  }

  // ---------------------------------------------------------------------
  // The demonstration's diary

  /** The counter values 1 and 2 number the demonstration's two entries. */
  lemma {:induction false} FirstTwoEntries()
    ensures NumberedEntry(1, "I ate a bug") == "1: I ate a bug"
    ensures NumberedEntry(2, "I cried today") == "2: I cried today"
  {
    assert Decimal.ToString(1) == "1";
    assert Decimal.ToString(2) == "2";
    EntryPieces();
  }

  /** Kept apart from FirstTwoEntries only so that the string-literal
      reasoning is its own small proof; inlined, it is slow and unstable. */
  lemma {:induction false} EntryPieces()
    ensures "1" + ": " + "I ate a bug" == "1: I ate a bug"
    ensures "2" + ": " + "I cried today" == "2: I cried today"
  {
  }

  /** The three concatenations the demonstration's text is built from, kept
      apart from DiaryText only so that the string-literal reasoning is its
      own small proof; inlined, it is slow and unstable. */
  lemma {:induction false} DiaryPieces()
    ensures "Title: " + "Dear Diary" + "\n" == "Title: Dear Diary\n"
    ensures "Title: Dear Diary\n" + "1: I ate a bug" + "\n" == "Title: Dear Diary\n1: I ate a bug\n"
    ensures "Title: Dear Diary\n1: I ate a bug\n" + "2: I cried today" + "\n"
         == "Title: Dear Diary\n1: I ate a bug\n2: I cried today\n"
  {
  }

  lemma {:induction false} DiaryText()
    ensures Rendered("Dear Diary", ["1: I ate a bug", "2: I cried today"])
         == "Title: Dear Diary\n1: I ate a bug\n2: I cried today\n"
  {
    var title, first, second := "Dear Diary", "1: I ate a bug", "2: I cried today";
    DiaryPieces();
    assert Lines([]) == [];
    assert Rendered(title, []) == "Title: Dear Diary\n";
    RenderedAppend(title, [], first);
    assert [] + [first] == [first];
    RenderedAppend(title, [first], second);
    assert [first] + [second] == [first, second];
  }

  /** Two entries added to a fresh journal are numbered 1 and 2. */
  method DearDiary() returns (text: string)
    ensures text == "Title: Dear Diary\n1: I ate a bug\n2: I cried today\n"
  {
    var counter := new EntryCounter();
    var journal := new Journal("Dear Diary");
    journal.AddEntry(counter, "I ate a bug");
    journal.AddEntry(counter, "I cried today");
    FirstTwoEntries();
    text := journal.Write();
    DiaryText();
  }

  /** The counter is shared: a second journal continues the numbering of
      the first instead of starting again at 1. */
  method SharedNumbering() returns (first: seq<string>, second: seq<string>)
    ensures first == ["1: breakfast"] && second == ["2: lunch"]
  {
    var counter := new EntryCounter();
    var a := new Journal("A");
    var b := new Journal("B");
    a.AddEntry(counter, "breakfast");
    b.AddEntry(counter, "lunch");
    assert Decimal.ToString(1) == "1" && Decimal.ToString(2) == "2";
    assert NumberedEntry(1, "breakfast") == "1" + ": " + "breakfast" == "1: breakfast";
    assert NumberedEntry(2, "lunch") == "2" + ": " + "lunch" == "2: lunch";
    first, second := a.entries, b.entries;
  }
}
