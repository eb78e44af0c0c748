/** How single values are written into the settings file and read out of it again: `quoted`,
    `arrayValue`, `scalar`, `arrayText` and `bool` of platform/macos/SettingsApp.swift. Which values
    survive the trip is settled exactly. */
module SettingValues {
  import opened Stripping
  import opened TextLines
  import opened ConfigLines

  // ---------------------------------------------------------------- scalars

  predicate Quote(c: char) { c == '\'' || c == '"' }

  /** Foundation's CharacterSet.whitespacesAndNewlines. */
  predicate Space(c: char) {
    Blank(c) || '\n' <= c <= '\r' || c == '\U{0085}' || c == '\U{2028}' || c == '\U{2029}'
  }

  function UpToHash(s: string): string {
    if s == "" || s[0] == '#' then "" else [s[0]] + UpToHash(s[1..])
  }

  /** The first piece between `#` signs that is not empty. */
  function FirstPiece(s: string): string {
    if s != "" && s[0] == '#' then FirstPiece(s[1..]) else UpToHash(s)
  }

  function Scalar(value: string): string { Strip(Trim(FirstPiece(value)), Quote) }

  function Quoted(value: string): string { "'" + Without(value, '\'') + "'" }

  lemma {:induction false} UpToHashFacts(s: string)
    ensures var r := UpToHash(s); '#' !in r && ('#' !in s ==> r == s) && |r| <= |s|
  {
    if s != "" && s[0] != '#' {
      UpToHashFacts(s[1..]);
      assert s == [s[0]] + s[1..];
    }
  }

  lemma {:induction false} TrimChars(s: string)
    ensures forall c :: c in TrimLeft(s) ==> c in s
  {
    if s != "" && Blank(s[0]) { TrimChars(s[1..]); }
  }

  lemma {:induction false} TrimRightChars(s: string)
    ensures forall c :: c in TrimRight(s) ==> c in s
  {
    if s != "" && Blank(s[|s| - 1]) { TrimRightChars(s[..|s| - 1]); }
  }

  /** Text that needs no quotes. */
  predicate Plain(s: string) { Trimmed(s) && '#' !in s && Bare(s, Quote) }

  lemma PlainReads(s: string)
    requires Plain(s)
    ensures Scalar(s) == s
  {
    UpToHashFacts(s);
    TrimTrimmed(s);
    StripBare(s, Quote);
  }

  predicate Quotable(v: string) { '\'' !in v && '#' !in v && Bare(v, Quote) }

  lemma ScalarOfQuoted(v: string)
    requires '#' !in v
    ensures Scalar(Quoted(v)) == Strip(Without(v, '\''), Quote)
  {
    var w := Without(v, '\'');
    WithoutFacts(v, '\'');
    UpToHashFacts(Quoted(v));
    TrimTrimmed(Quoted(v));
    assert Quoted(v) == ['\''] + (w + ['\'']);
    StripOneLeft('\'', w + ['\''], Quote);
    StripOneRight(w, '\'', Quote);
  }

  lemma {:induction false} FirstPieceNoHash(s: string)
    ensures '#' !in FirstPiece(s)
  {
    if s != "" && s[0] == '#' { FirstPieceNoHash(s[1..]); } else { UpToHashFacts(s); }
  }

  lemma HashNeverRead(value: string)
    ensures '#' !in Scalar(value)
  {
    FirstPieceNoHash(value);
    var piece := FirstPiece(value);
    TrimChars(piece);
    TrimRightChars(TrimLeft(piece));
    StripFacts(Trim(piece), Quote);
  }

  /** A quoted text is read back exactly when it holds no apostrophe and no hash, and neither begins
      nor ends with a double quote. */
  lemma QuotedReads(v: string)
    ensures Scalar(Quoted(v)) == v <==> Quotable(v)
  {
    var w := Without(v, '\'');
    WithoutFacts(v, '\'');
    if '#' in v {
      HashNeverRead(Quoted(v));
    } else {
      ScalarOfQuoted(v);
      StripFacts(w, Quote);
      if Quotable(v) { StripBare(v, Quote); }
    }
  }

  predicate Truth(value: string) {
    var s := Scalar(value);
    && |s| == 4
    && (s[0] == 't' || s[0] == 'T') && (s[1] == 'r' || s[1] == 'R') && (s[2] == 'u' || s[2] == 'U')
    && (s[3] == 'e' || s[3] == 'E')
  }

  function FlagText(on: bool): string { if on then "true" else "false" }

  lemma FlagReads(on: bool)
    ensures Truth(FlagText(on)) == on
  {
    PlainReads(FlagText(on));
  }

  // ---------------------------------------------------------------- lists

  /** Trimmed, and without the empty ones. */
  function Items(parts: seq<string>): seq<string> {
    if parts == [] then []
    else (if Strip(parts[0], Space) == "" then [] else [Strip(parts[0], Space)]) + Items(parts[1..])
  }

  function QuotedAll(items: seq<string>): seq<string> {
    if items == [] then [] else [Quoted(items[0])] + QuotedAll(items[1..])
  }

  /** The text field of a list is a comma-separated line; the file has it as an array of strings. */
  function ArrayValue(value: string): string {
    "[ " + JoinWith(QuotedAll(Items(SplitOn(value, ','))), ", ") + " ]"
  }

  function NoBrackets(s: string): string { Without(Without(s, '['), ']') }

  /** One piece of an array: trimmed, then stripped of quotes. */
  function Piece(part: string): string { Strip(Strip(part, Space), Quote) }

  function Pieces(parts: seq<string>): seq<string> {
    if parts == [] then [] else (if Piece(parts[0]) == "" then [] else [Piece(parts[0])]) + Pieces(parts[1..])
  }

  function ArrayText(value: string): string { JoinWith(Pieces(SplitOn(NoBrackets(value), ',')), ", ") }

  /** What is left of an item of the list. */
  function Kept(item: string): string { Strip(NoBrackets(Without(item, '\'')), Quote) }

  function KeptAll(items: seq<string>): seq<string> {
    if items == [] then [] else (if Kept(items[0]) == "" then [] else [Kept(items[0])]) + KeptAll(items[1..])
  }

  lemma NoBracketsAppend(a: string, b: string)
    ensures NoBrackets(a + b) == NoBrackets(a) + NoBrackets(b)
  {
    WithoutAppend(a, b, '[');
    WithoutAppend(Without(a, '['), Without(b, '['), ']');
  }

  /** The pieces between the brackets, each with the space before it and the last with one after it. */
  function Bracketed(items: seq<string>): string { " " + JoinWith(QuotedAll(items), ", ") + " " }

  lemma BracketsGone(items: seq<string>)
    ensures NoBrackets("[ " + JoinWith(QuotedAll(items), ", ") + " ]") == NoBrackets(Bracketed(items))
  {
    var j := JoinWith(QuotedAll(items), ", ");
    assert NoBrackets("[ ") == " " by {
      assert "[ "[1..] == " " && " "[1..] == "";
    }
    assert NoBrackets(" ]") == " " by {
      assert " ]"[1..] == "]" && "]"[1..] == "" && " "[1..] == "";
    }
    assert NoBrackets(" ") == " " by { assert " "[1..] == ""; }
    hide NoBrackets;
    NoBracketsAppend("[ " + j, " ]");
    NoBracketsAppend("[ ", j);
    NoBracketsAppend(" " + j, " ");
    NoBracketsAppend(" ", j);
  }

  predicate CommaFree(items: seq<string>) { forall i :: 0 <= i < |items| ==> ',' !in items[i] }

  lemma QuotedNoBrackets(item: string)
    ensures NoBrackets(Quoted(item)) == ['\''] + (NoBrackets(Without(item, '\'')) + ['\''])
  {
    var w := Without(item, '\'');
    assert NoBrackets("'") == "'" by { assert "'"[1..] == ""; }
    hide NoBrackets;
    NoBracketsAppend("'" + w, "'");
    NoBracketsAppend("'", w);
  }

  lemma PieceOfQuoted(item: string, after: string)
    requires after == "" || after == " "
    ensures Piece(" " + NoBrackets(Quoted(item)) + after) == Kept(item)
    ensures ',' !in item ==> ',' !in NoBrackets(Quoted(item))
  {
    var w := Without(item, '\'');
    var y := NoBrackets(w);
    var x := ['\''] + (y + ['\'']);
    QuotedNoBrackets(item);
    assert NoBrackets(Quoted(item)) == x;
    assert Strip(" " + x + after, Space) == x by {
      assert " " + x + after == [' '] + (x + after);
      StripOneLeft(' ', x + after, Space);
      if after == " " { StripOneRight(x, ' ', Space); } else { assert x + after == x; }
      StripBare(x, Space);
    }
    StripOneLeft('\'', y + ['\''], Quote);
    StripOneRight(y, '\'', Quote);
    WithoutFacts(item, '\'');
    WithoutFacts(w, '[');
    WithoutFacts(Without(w, '['), ']');
  }

  lemma {:induction false} PiecesAppend(a: seq<string>, b: seq<string>)
    ensures Pieces(a + b) == Pieces(a) + Pieces(b)
  {
    if a == [] {
      assert a + b == b;
    } else {
      assert (a + b)[1..] == a[1..] + b;
      PiecesAppend(a[1..], b);
    }
  }

  lemma NothingListed()
    ensures Pieces(SplitOn(NoBrackets(Bracketed([])), ',')) == []
  {
    assert Bracketed([]) == "  ";
    assert "  "[1..] == " " && " "[1..] == "";
    assert NoBrackets("  ") == "  ";
    SplitFree("  ", ',');
    StripOneLeft(' ', " ", Space);
    StripOneLeft(' ', "", Space);
    assert "  " == [' '] + " " && " " == [' '] + "";
    assert ["  "][1..] == [];
  }

  lemma SpaceKept(s: string)
    ensures NoBrackets(" " + s + " ") == " " + NoBrackets(s) + " " && NoBrackets(" " + s) == " " + NoBrackets(s)
  {
    assert NoBrackets(" ") == " " by { assert " "[1..] == ""; }
    hide NoBrackets;
    NoBracketsAppend(" " + s, " ");
    NoBracketsAppend(" ", s);
  }

  lemma BracketedCons(items: seq<string>)
    requires |items| > 1
    ensures Bracketed(items) == (" " + Quoted(items[0])) + ([','] + Bracketed(items[1..]))
  {
    hide Quoted;
    var qs := QuotedAll(items);
    assert qs[0] == Quoted(items[0]) && qs[1..] == QuotedAll(items[1..]) && |qs| > 1;
    var rest := JoinWith(qs[1..], ", ");
    assert JoinWith(qs, ", ") == qs[0] + ", " + rest;
    hide *;
    assert " " + (qs[0] + ", " + rest) + " " == (" " + qs[0]) + ([','] + (" " + rest + " "));
  }

  lemma BracketedSplit(items: seq<string>, q: string)
    requires |items| > 1 && q == NoBrackets(" " + Quoted(items[0]))
    ensures NoBrackets(Bracketed(items)) == q + [','] + NoBrackets(Bracketed(items[1..]))
  {
    assert NoBrackets([',']) == [','] by { assert [','][1..] == []; }
    BracketedCons(items);
    hide *;
    var rest := Bracketed(items[1..]);
    NoBracketsAppend(" " + Quoted(items[0]), [','] + rest);
    NoBracketsAppend([','], rest);
  }

  lemma {:induction false} ArrayPieces(items: seq<string>)
    requires CommaFree(items)
    ensures Pieces(SplitOn(NoBrackets(Bracketed(items)), ',')) == KeptAll(items)
  {
    if items == [] {
      NothingListed();
    } else {
      hide NoBrackets, Kept, Piece, Quoted, Strip;
      PieceOfQuoted(items[0], "");
      PieceOfQuoted(items[0], " ");
      SpaceKept(Quoted(items[0]));
      var q := " " + NoBrackets(Quoted(items[0]));
      if |items| == 1 {
        assert Bracketed(items) == " " + Quoted(items[0]) + " ";
        SplitFree(q + " ", ',');
        assert [q + " "][1..] == [];
        assert items[1..] == [];
      } else {
        BracketedSplit(items, q);
        SplitFree(q, ',');
        assert q + "" == q;
        SplitAppend(q, ',', NoBrackets(Bracketed(items[1..])));
        ArrayPieces(items[1..]);
        assert Pieces([q]) == KeptAll([items[0]]) by { assert [q][1..] == [] && [items[0]][1..] == []; }
        PiecesAppend([q], SplitOn(NoBrackets(Bracketed(items[1..])), ','));
      }
    }
  }

  lemma {:induction false} ItemsFacts(parts: seq<string>)
    ensures |Items(parts)| <= |parts|
    ensures forall i :: 0 <= i < |Items(parts)| ==> Items(parts)[i] != ""
    ensures |Items(parts)| == |parts| ==> forall i :: 0 <= i < |parts| ==> Items(parts)[i] == Strip(parts[i], Space)
    ensures CommaFree(parts) ==> CommaFree(Items(parts))
  {
    hide Strip;
    if parts != [] {
      ItemsFacts(parts[1..]);
      StripFacts(parts[0], Space);
    }
  }

  /** An item of a list that can be written down. */
  predicate Listable(item: string) { '\'' !in item && '[' !in item && ']' !in item && Bare(item, Quote) }

  lemma KeptFacts(item: string)
    ensures var r := Kept(item);
            && |r| <= |item| && (forall c :: c in r ==> c in item)
            && (|r| == |item| ==> r == item) && (r == item <==> Listable(item))
  {
    var w := Without(item, '\'');
    WithoutFacts(item, '\'');
    WithoutFacts(w, '[');
    WithoutFacts(Without(w, '['), ']');
    StripFacts(NoBrackets(w), Quote);
    if Listable(item) { StripBare(item, Quote); }
    hide Without, Strip;
  }

  lemma {:induction false} KeptAllFacts(items: seq<string>)
    ensures |KeptAll(items)| <= |items|
    ensures |KeptAll(items)| == |items| ==> forall i :: 0 <= i < |items| ==> KeptAll(items)[i] == Kept(items[i])
    ensures CommaFree(items) ==> CommaFree(KeptAll(items))
  {
    hide Kept;
    if items != [] {
      KeptAllFacts(items[1..]);
      KeptFacts(items[0]);
    }
  }

  function ListItems(v: string): seq<string> { Items(SplitOn(v, ',')) }

  /** What a list setting reads back as, for every text of the field. */
  lemma ArrayReads(v: string)
    ensures ArrayText(ArrayValue(v)) == JoinWith(KeptAll(ListItems(v)), ", ")
  {
    hide NoBrackets, Kept, Pieces, Items;
    PartsFree(v, ',');
    ItemsFacts(SplitOn(v, ','));
    BracketsGone(ListItems(v));
    ArrayPieces(ListItems(v));
  }

  predicate ListQuotable(v: string) {
    v == JoinWith(ListItems(v), ", ") && forall i :: 0 <= i < |ListItems(v)| ==> Listable(ListItems(v)[i])
  }

  lemma {:induction false} KeptUnchanged(items: seq<string>)
    requires forall i :: 0 <= i < |items| ==> Listable(items[i]) && items[i] != ""
    ensures KeptAll(items) == items
  {
    hide Kept, Listable;
    if items != [] {
      KeptFacts(items[0]);
      KeptUnchanged(items[1..]);
    }
  }

  lemma JoinCons(parts: seq<string>, before: string)
    requires |parts| > 1
    ensures before + JoinWith(parts, ", ") == (before + parts[0]) + [','] + (" " + JoinWith(parts[1..], ", "))
  {
  }

  lemma NoItems(before: string)
    requires before == "" || before == " "
    ensures Items(SplitOn(before + "", ',')) == []
  {
    assert before + "" == before;
    SplitFree(before, ',');
    if before == " " {
      StripOneLeft(' ', "", Space);
      assert before == [' '] + "";
    }
    assert [before][1..] == [];
  }

  /** Cutting a joined list gives its items again, up to the space before each. */
  lemma {:induction false} JoinedItems(parts: seq<string>, before: string)
    requires CommaFree(parts) && (before == "" || before == " ")
    ensures Items(SplitOn(before + JoinWith(parts, ", "), ',')) == Items(parts)
  {
    if parts == [] {
      NoItems(before);
    } else {
      hide Strip;
      var first := before + parts[0];
      assert Strip(first, Space) == Strip(parts[0], Space) by {
        if before == " " { StripOneLeft(' ', parts[0], Space); } else { assert first == parts[0]; }
      }
      SplitFree(first, ',');
      if |parts| == 1 {
        assert [first][1..] == parts[1..];
      } else {
        var rest := " " + JoinWith(parts[1..], ", ");
        JoinCons(parts, before);
        SplitAppend(first, ',', rest);
        JoinedItems(parts[1..], " ");
        assert ([first] + SplitOn(rest, ','))[1..] == SplitOn(rest, ',');
      }
    }
  }

  /** A list is read back exactly when it is written with single `, ` between items that are trimmed
      and hold no quotes and brackets that would be lost. */
  lemma ListReads(v: string)
    ensures ArrayText(ArrayValue(v)) == v <==> ListQuotable(v)
  {
    hide ArrayText, ArrayValue, Kept, Listable, Strip;
    var items := ListItems(v);
    var kept := KeptAll(items);
    ArrayReads(v);
    PartsFree(v, ',');
    ItemsFacts(SplitOn(v, ','));
    if ListQuotable(v) {
      KeptUnchanged(items);
    }
    if ArrayText(ArrayValue(v)) == v {
      KeptAllFacts(items);
      JoinedItems(kept, "");
      assert "" + v == v;
      ItemsFacts(kept);
      forall i | 0 <= i < |items| ensures kept[i] == items[i] && Listable(items[i]) {
        KeptFacts(items[i]);
        StripFacts(kept[i], Space);
      }
      assert kept == items;
    }
  }
}
