/**
 * Card-reference parsing and the watch-list append loop of `card_adder.py`.
 *
 * The interactive prompt, the date and the card lookup are inputs here:
 * the append loop receives, in order, every card the session's lookups
 * returned, and the date of the run. The file is a sequence of lines: the
 * lines read at the start, and the lines the run appends.
 */
module CardAdder {
  import opened Wrappers
  import opened Strings
  import Scryfall

  // ---------------------------------------------------------------------
  // Parsing `Name(SET)NUM`

  datatype CardRef = CardRef(name: string, setPart: string, num: string)

  datatype ParseError = UnmatchedParen

  /** Python's `s[i:j]` for indices within the string: empty when `j < i`. */
  function Slice(s: string, i: nat, j: nat): string
    requires i <= |s| && j <= |s|
  {
    if i <= j then s[i..j] else ""
  }

  /** The text the three parts stand for. */
  function Reassembled(c: CardRef): string {
    c.name + "(" + c.setPart + ")" + c.num
  }

  lemma ReassembledLength(c: CardRef)
    ensures |Reassembled(c)| == |c.name| + |c.setPart| + |c.num| + 2
  {
  }

  /**
   * `parse_string` as written: the name ends at the first `(`, and the set
   * part at the first `)` of the whole input, wherever that is.
   */
  function ParseString(input: string): (r: Result<CardRef, ParseError>)
    ensures '(' !in input ==> r == Ok(CardRef(input, "", ""))
    ensures r.Err? <==> '(' in input && ')' !in input
    ensures r.Ok? ==> '(' !in r.value.name && ')' !in r.value.setPart
    ensures '(' in input && ')' in input ==>
              (Reassembled(r.value) == input <==> Find(input, '(') < Find(input, ')'))
  {
    var open, close := Find(input, '('), Find(input, ')');
    if open != -1 then
      if close != -1 then
        var r := CardRef(input[..open], Slice(input, open + 1, close), input[close + 1..]);
        assert open < close ==> input == input[..open] + "(" + input[open + 1..close] + ")" + input[close + 1..];
        assert close < open ==> |Reassembled(r)| > |input|;
        Ok(r)
      else Err(UnmatchedParen)
    else Ok(CardRef(input, "", ""))
  }

  /** A `)` typed before the `(` empties the set part and loses the set code. */
  lemma MisplacedCloseLosesSet()
    ensures ParseString("a)(M)") == Ok(CardRef("a)", "", "(M)"))
    ensures Reassembled(ParseString("a)(M)").value) != "a)(M)"
  {
    MisplacedCloseParse();
    ReassembledLength(CardRef("a)", "", "(M)"));
  }

  lemma MisplacedCloseParse()
    ensures ParseString("a)(M)") == Ok(CardRef("a)", "", "(M)"))
  {
    var s := "a)(M)";
    assert s[..1] == "a" && ')' !in "a";
    FindAt(s, ')', 1);
    assert s[..2] == "a)" && '(' !in "a)";
    FindAt(s, '(', 2);
    CloseFirst(s, 2, 1);
    assert s[2..] == "(M)";
  }

  /** When the first `)` comes before the first `(`, the set part is empty. */
  lemma CloseFirst(s: string, open: nat, close: nat)
    requires Find(s, '(') == open && Find(s, ')') == close && close < open
    ensures ParseString(s) == Ok(CardRef(s[..open], "", s[close + 1..]))
  {
  }

  /**
   * The evidently intended reading: the set part ends at the first `)`
   * after the first `(`.
   */
  function ParseStringCorrected(input: string): (r: Result<CardRef, ParseError>)
    ensures '(' !in input ==> r == Ok(CardRef(input, "", ""))
    ensures '(' in input ==> (r.Ok? <==> ')' in input[Find(input, '(') + 1..])
    ensures '(' in input && r.Ok? ==> Reassembled(r.value) == input
    ensures r.Ok? ==> '(' !in r.value.name && ')' !in r.value.setPart
  {
    var open := Find(input, '(');
    if open == -1 then Ok(CardRef(input, "", ""))
    else
      var after := input[open + 1..];
      var close := Find(after, ')');
      if close == -1 then Err(UnmatchedParen)
      else
        var r := CardRef(input[..open], after[..close], after[close + 1..]);
        ReassembleAround(input, open, close);
        Ok(r)
  }

  /** Cutting around a `(` and a later `)` and putting the pieces back together gives the text. */
  lemma ReassembleAround(s: string, open: nat, close: nat)
    requires open < |s| && s[open] == '('
    requires close < |s[open + 1..]| && s[open + 1..][close] == ')'
    ensures var after := s[open + 1..];
            Reassembled(CardRef(s[..open], after[..close], after[close + 1..])) == s
  {
    var after := s[open + 1..];
    assert s == s[..open] + "(" + after;
    assert after == after[..close] + ")" + after[close + 1..];
  }

  /** `validate_cards` turns the placeholder `_` into "no constraint". */
  function Unconstrained(field: string): (r: string)
    ensures field == "_" ==> r == ""
    ensures field != "_" ==> r == field
    ensures r != "_"
  {
    if field == "_" then "" else field
  }

  // ---------------------------------------------------------------------
  // The watch-list line of a card

  /** The identity prefix of a card's line: name, set and collector number. */
  function LineId(c: Scryfall.PriceInfo): string {
    c.name + " | " + c.setCode + " | " + c.collectorNumber + " | "
  }

  /** The rest of the line: the five prices, the date and the uri, then the line end. */
  function LineRest(c: Scryfall.PriceInfo, today: string): string {
    Render([c.prices.usd, c.prices.usdFoil, c.prices.eur, c.prices.eurFoil, c.prices.tix, today, c.uri])
  }

  function LineFor(c: Scryfall.PriceInfo, today: string): string {
    LineId(c) + LineRest(c, today)
  }

  /** The ten fields of a card's line, in file order. */
  function Fields(c: Scryfall.PriceInfo, today: string): seq<string> {
    [c.name, c.setCode, c.collectorNumber, c.prices.usd, c.prices.usdFoil,
     c.prices.eur, c.prices.eurFoil, c.prices.tix, today, c.uri]
  }

  /** Fields joined by ` | ` and ended by a line end. */
  function Render(fs: seq<string>): string
    requires |fs| >= 1
  {
    if |fs| == 1 then fs[0] + "\n" else fs[0] + " | " + Render(fs[1..])
  }

  /**
   * A field the reader gives back unchanged: no `|`, no white space at its
   * ends, and no line break, so that the written text stays one line of
   * the file when `readlines` reads it back.
   */
  predicate Clean(x: string) {
    '|' !in x && '\n' !in x && '\r' !in x && Trimmed(x)
  }

  lemma RenderStep(fs: seq<string>, i: nat)
    requires i + 1 < |fs|
    ensures Render(fs[i..]) == fs[i] + " | " + Render(fs[i + 1..])
  {
    assert fs[i..][1..] == fs[i + 1..];
  }

  lemma LineIsRendered(c: Scryfall.PriceInfo, today: string)
    ensures LineFor(c, today) == Render(Fields(c, today))
  {
    var fs := Fields(c, today);
    var r3 := LineRest(c, today);
    assert fs[3..] == [c.prices.usd, c.prices.usdFoil, c.prices.eur, c.prices.eurFoil, c.prices.tix, today, c.uri];
    RenderStep(fs, 2); RenderStep(fs, 1); RenderStep(fs, 0);
    assert fs[0..] == fs;
    var r2 := c.collectorNumber + " | " + r3;
    var r1 := c.setCode + " | " + r2;
    assert Render(fs) == c.name + " | " + r1;
    RegroupId(c.name, c.setCode, c.collectorNumber, r3);
  }

  /** The identifying prefix followed by the rest, regrouped field by field. */
  lemma RegroupId(x: string, y: string, z: string, rest: string)
    ensures x + " | " + y + " | " + z + " | " + rest == x + " | " + (y + " | " + (z + " | " + rest))
  {
    var bar := " | ";
    ConcatAssoc(x + bar + y + bar + z, bar, rest);
    ConcatAssoc(x + bar + y + bar, z, bar + rest);
    ConcatAssoc(z, bar, rest);
    ConcatAssoc(x + bar + y, bar, z + bar + rest);
    ConcatAssoc(x + bar, y, bar + (z + bar + rest));
    ConcatAssoc(y, bar, z + bar + rest);
  }

  lemma PartsCons(head: string, tail: string)
    requires '|' !in head
    ensures Scryfall.Parts(head + "|" + tail) == [Strip(head)] + Scryfall.Parts(tail)
  {
    SplitAfter(head, '|', tail);
    StripAllCons(head, Split(tail, '|'));
  }

  /** Reading back rendered clean fields after any leading white space gives the fields. */
  lemma {:induction false} PartsOfRendered(lead: string, fs: seq<string>)
    requires |fs| >= 1 && AllSpace(lead)
    requires forall i :: 0 <= i < |fs| ==> Clean(fs[i])
    ensures Scryfall.Parts(lead + Render(fs)) == fs
    decreases |fs|
  {
    if |fs| == 1 {
      RenderedLast(lead, fs);
    } else {
      RenderedNext(lead, fs);
      OneSpace();
      CleanTail(fs);
      PartsOfRendered(" ", fs[1..]);
      HeadTail(fs);
    }
  }

  lemma OneSpace()
    ensures AllSpace(" ")
  {
    assert " "[0] == ' ';
  }

  lemma RenderedLast(lead: string, fs: seq<string>)
    requires |fs| == 1 && AllSpace(lead) && Clean(fs[0])
    ensures Scryfall.Parts(lead + Render(fs)) == fs
  {
    var x := fs[0];
    ConcatAssoc(lead, x, "\n");
    LastPart(lead, x);
    assert fs == [x];
  }

  lemma RenderedNext(lead: string, fs: seq<string>)
    requires |fs| >= 2 && AllSpace(lead) && Clean(fs[0])
    ensures Scryfall.Parts(lead + Render(fs)) == [fs[0]] + Scryfall.Parts(" " + Render(fs[1..]))
  {
    var x, rest := fs[0], Render(fs[1..]);
    ConcatAssoc(lead, x, " | ");
    ConcatAssoc(lead, x + " | ", rest);
    NextPart(lead, x, rest);
  }

  lemma CleanTail(fs: seq<string>)
    requires |fs| >= 1 && forall i :: 0 <= i < |fs| ==> Clean(fs[i])
    ensures forall i :: 0 <= i < |fs[1..]| ==> Clean(fs[1..][i])
  {
    forall i | 0 <= i < |fs[1..]| ensures Clean(fs[1..][i]) {
      assert fs[1..][i] == fs[i + 1];
    }
  }

  lemma NoBarInSpace(lead: string)
    requires AllSpace(lead)
    ensures '|' !in lead
  {
    assert forall i :: 0 <= i < |lead| ==> IsSpace(lead[i]);
  }

  /** The last field: only white space before it and the line end after it. */
  lemma LastPart(lead: string, x: string)
    requires AllSpace(lead) && Clean(x)
    ensures Scryfall.Parts(lead + x + "\n") == [x]
  {
    var s := lead + x + "\n";
    NoBarInSpace(lead);
    assert '|' !in s by {
      assert forall i :: 0 <= i < |s| ==> s[i] == if i < |lead| then lead[i] else if i < |lead| + |x| then x[i - |lead|] else '\n';
    }
    assert Split(s, '|') == [s];
    StripAllCons(s, []);
    assert AllSpace("\n") by { assert "\n"[0] == '\n'; }
    StripPadded(lead, x, "\n");
  }

  /** A field other than the last: white space before it, then ` | ` and the rest of the line. */
  lemma NextPart(lead: string, x: string, rest: string)
    requires AllSpace(lead) && Clean(x)
    ensures Scryfall.Parts(lead + x + " | " + rest) == [x] + Scryfall.Parts(" " + rest)
  {
    var head := lead + x + " ";
    assert lead + x + " | " + rest == head + "|" + (" " + rest);
    NoBarInSpace(lead);
    assert '|' !in head by {
      assert forall i :: 0 <= i < |head| ==> head[i] == if i < |lead| then lead[i] else if i < |lead| + |x| then x[i - |lead|] else ' ';
    }
    PartsCons(head, " " + rest);
    assert AllSpace(" ") by { assert " "[0] == ' '; }
    StripPadded(lead, x, " ");
  }

  /**
   * A line this loop writes is read back by the watch-list reader as the
   * card's entry, when no field holds a `|`, a line break or white space
   * at its ends, and the name does not start with `#`.
   */
  lemma LineRoundTrip(c: Scryfall.PriceInfo, today: string)
    requires forall i :: 0 <= i < 10 ==> Clean(Fields(c, today)[i])
    requires c.name == "" || c.name[0] != '#'
    ensures Scryfall.ParseLine(LineFor(c, today)) == Scryfall.Entry(Scryfall.WatchEntry(
              c.name, c.setCode, c.collectorNumber, c.prices.usd, c.prices.usdFoil,
              c.prices.eur, c.prices.eurFoil, c.prices.tix, today, c.uri))
  {
    LineParts(c, today);
    LineStart(c, today);
  }

  lemma LineParts(c: Scryfall.PriceInfo, today: string)
    requires forall i :: 0 <= i < 10 ==> Clean(Fields(c, today)[i])
    ensures Scryfall.Parts(LineFor(c, today)) == Fields(c, today)
  {
    var fs := Fields(c, today);
    LineIsRendered(c, today);
    assert "" + Render(fs) == LineFor(c, today);
    PartsOfRendered("", fs);
  }

  lemma LineStart(c: Scryfall.PriceInfo, today: string)
    requires c.name == "" || c.name[0] != '#'
    ensures LineFor(c, today) != [] && LineFor(c, today)[0] != '#'
  {
    var line := LineFor(c, today);
    assert line == c.name + (" | " + c.setCode + " | " + c.collectorNumber + " | " + LineRest(c, today));
    if c.name != [] {
      assert line[0] == c.name[0];
    } else {
      assert line[0] == ' ';
    }
  }

  // ---------------------------------------------------------------------
  // The append loop with its set of seen lines

  /** The cards whose lines the loop writes, starting from the set `seen`. */
  function Kept(seen: set<string>, cards: seq<Scryfall.PriceInfo>): seq<Scryfall.PriceInfo>
    decreases |cards|
  {
    if cards == [] then []
    else if LineId(cards[0]) !in seen then [cards[0]] + Kept(seen + {LineId(cards[0])}, cards[1..])
    else Kept(seen, cards[1..])
  }

  /** The set of seen lines after the loop. */
  function SeenAfter(seen: set<string>, cards: seq<Scryfall.PriceInfo>): set<string>
    decreases |cards|
  {
    if cards == [] then seen
    else if LineId(cards[0]) !in seen then SeenAfter(seen + {LineId(cards[0])}, cards[1..])
    else SeenAfter(seen, cards[1..])
  }

  /** The lines written for the given cards, in order. */
  function Lines(cards: seq<Scryfall.PriceInfo>, today: string): seq<string> {
    if cards == [] then [] else [LineFor(cards[0], today)] + Lines(cards[1..], today)
  }

  /**
   * The loop of `log_card_collection` over the cards the lookups returned:
   * a card's line is written only when its identity prefix is not in the
   * set yet, and the prefix is added at once.
   */
  method AppendUnique(seen: set<string>, cards: seq<Scryfall.PriceInfo>, today: string)
    returns (written: seq<string>, uniqueLines: set<string>)
    ensures written == Lines(Kept(seen, cards), today)
    ensures uniqueLines == SeenAfter(seen, cards)
  {
    uniqueLines, written := seen, [];
    for i := 0 to |cards|
      invariant written + Lines(Kept(uniqueLines, cards[i..]), today) == Lines(Kept(seen, cards), today)
      invariant SeenAfter(uniqueLines, cards[i..]) == SeenAfter(seen, cards)
    {
      var card := cards[i];
      assert cards[i..][0] == card && cards[i..][1..] == cards[i + 1..];
      var lineId := LineId(card);
      var line := LineRest(card, today);
      if lineId !in uniqueLines {
        ghost var later := Lines(Kept(uniqueLines + {lineId}, cards[i + 1..]), today);
        assert Lines(Kept(uniqueLines, cards[i..]), today) == [lineId + line] + later;
        uniqueLines := uniqueLines + {lineId};
        written := written + [lineId + line];
      }
    }
  }

  /** The identity prefixes of the written cards are distinct, and none was seen before. */
  lemma {:induction false} KeptDistinct(seen: set<string>, cards: seq<Scryfall.PriceInfo>)
    ensures forall i :: 0 <= i < |Kept(seen, cards)| ==> LineId(Kept(seen, cards)[i]) !in seen
    ensures forall i, j :: 0 <= i < j < |Kept(seen, cards)| ==>
              LineId(Kept(seen, cards)[i]) != LineId(Kept(seen, cards)[j])
    decreases |cards|
  {
    if cards != [] {
      var id := LineId(cards[0]);
      if id !in seen {
        KeptDistinct(seen + {id}, cards[1..]);
        var k, rest := Kept(seen, cards), Kept(seen + {id}, cards[1..]);
        assert k == [cards[0]] + rest;
        forall i | 0 <= i < |k| ensures LineId(k[i]) !in seen {
          if i > 0 { assert k[i] == rest[i - 1]; }
        }
        forall i, j | 0 <= i < j < |k| ensures LineId(k[i]) != LineId(k[j]) {
          assert k[j] == rest[j - 1];
          if i > 0 { assert k[i] == rest[i - 1]; }
        }
      } else {
        KeptDistinct(seen, cards[1..]);
      }
    }
  }

  /**
   * The set only grows: afterwards it holds what it held before and the
   * identity prefixes of the written lines, and nothing else; every card's
   * prefix is in it.
   */
  lemma {:induction false} SeenAfterGrows(seen: set<string>, cards: seq<Scryfall.PriceInfo>)
    ensures SeenAfter(seen, cards) == seen + set c | c in Kept(seen, cards) :: LineId(c)
    ensures forall c :: c in cards ==> LineId(c) in SeenAfter(seen, cards)
    decreases |cards|
  {
    if cards != [] {
      var id := LineId(cards[0]);
      if id !in seen {
        SeenAfterGrows(seen + {id}, cards[1..]);
        var rest := Kept(seen + {id}, cards[1..]);
        assert Kept(seen, cards) == [cards[0]] + rest;
        assert (set c | c in [cards[0]] + rest :: LineId(c)) == {id} + set c | c in rest :: LineId(c);
      } else {
        SeenAfterGrows(seen, cards[1..]);
      }
      assert forall c :: c in cards ==> c == cards[0] || c in cards[1..];
    }
  }

  /** A card whose identity prefix was seen writes nothing and leaves the set as it was. */
  lemma RejectedWritesNothing(seen: set<string>, c: Scryfall.PriceInfo, cards: seq<Scryfall.PriceInfo>)
    requires LineId(c) in seen
    ensures Kept(seen, [c] + cards) == Kept(seen, cards)
    ensures SeenAfter(seen, [c] + cards) == SeenAfter(seen, cards)
  {
    assert ([c] + cards)[0] == c && ([c] + cards)[1..] == cards;
  }

  /** The set `log_card_collection` starts from: the file's lines as read, line ends included. */
  function SeedAsWritten(existing: seq<string>): set<string> {
    set l | l in existing
  }

  /** `log_card_collection` as written: seeded with whole lines, looked up by identity prefix. */
  method LogCardCollection(existing: seq<string>, cards: seq<Scryfall.PriceInfo>, today: string)
    returns (written: seq<string>, uniqueLines: set<string>)
    ensures written == Lines(Kept(SeedAsWritten(existing), cards), today)
    ensures uniqueLines == SeenAfter(SeedAsWritten(existing), cards)
  {
    written, uniqueLines := AppendUnique(SeedAsWritten(existing), cards, today);
  }

  /** A card whose line is already in the file is written again: a whole line never equals a prefix. */
  lemma ExistingLineNotRecognised(c: Scryfall.PriceInfo, day: string)
    ensures Kept(SeedAsWritten([LineFor(c, day)]), [c]) == [c]
  {
    assert |LineId(c)| < |LineFor(c, day)|;
    assert LineId(c) !in SeedAsWritten([LineFor(c, day)]);
  }

  /** The identity prefix of a watch-list entry, rendered as the loop renders a card's. */
  function EntryId(e: Scryfall.WatchEntry): string {
    e.cardName + " | " + e.expansion + " | " + e.collectorNumber + " | "
  }

  /** The evidently intended seed: the identity prefixes of the lines already in the file. */
  function SeedByIdentity(existing: seq<string>): set<string> {
    set l | l in existing && Scryfall.ParseLine(l).Entry? :: EntryId(Scryfall.ParseLine(l).entry)
  }

  /** `log_card_collection` with the corrected seed: no written line repeats a line of the file. */
  method LogCardCollectionCorrected(existing: seq<string>, cards: seq<Scryfall.PriceInfo>, today: string)
    returns (written: seq<string>, uniqueLines: set<string>)
    ensures written == Lines(Kept(SeedByIdentity(existing), cards), today)
    ensures uniqueLines == SeenAfter(SeedByIdentity(existing), cards)
  {
    written, uniqueLines := AppendUnique(SeedByIdentity(existing), cards, today);
  }

  /**
   * With the corrected seed, no card is written whose identity prefix is
   * that of a line already in the file, nor twice in one run.
   */
  lemma CorrectedNeverDuplicates(existing: seq<string>, cards: seq<Scryfall.PriceInfo>)
    ensures var k := Kept(SeedByIdentity(existing), cards);
            && (forall i, l :: 0 <= i < |k| && l in existing && Scryfall.ParseLine(l).Entry? ==>
                  LineId(k[i]) != EntryId(Scryfall.ParseLine(l).entry))
            && (forall i, j :: 0 <= i < j < |k| ==> LineId(k[i]) != LineId(k[j]))
  {
    KeptDistinct(SeedByIdentity(existing), cards);
  }

  /** With the corrected seed, a card whose line is already in the file is not written again. */
  lemma ExistingLineRecognised(c: Scryfall.PriceInfo, day: string)
    requires forall i :: 0 <= i < 10 ==> Clean(Fields(c, day)[i])
    requires c.name == "" || c.name[0] != '#'
    ensures Kept(SeedByIdentity([LineFor(c, day)]), [c]) == []
  {
    LineRoundTrip(c, day);
    var l := LineFor(c, day);
    assert EntryId(Scryfall.ParseLine(l).entry) == LineId(c);
    assert LineId(c) in SeedByIdentity([l]);
  }
}
