/** A reader for SEB-JSON that works from the right: a closing quote, bracket or brace always
    has one possible partner on its left, even after a string that ends in a backslash. */
module SebReader {
  import opened Strings
  import opened Plist
  import opened KeyOrder
  import opened JsonText
  import opened Numerals
  import opened SebJson
  import Base64

  predicate EndsIn(s: string, c: char) {
    s != "" && s[|s| - 1] == c
  }

  function ButLast(s: string): string
    requires s != ""
  {
    s[..|s| - 1]
  }

  /** The last quote that no backslash precedes. */
  function OpenQuote(s: string): (r: Option<nat>)
    ensures r.Some? ==> r.value < |s|
  {
    if s == "" then None
    else
      var i := |s| - 1;
      if s[i] == '"' && (i == 0 || s[i - 1] != '\\') then Some(i) else OpenQuote(s[..i])
  }

  function ReadString(s: string): (r: Option<(string, string)>)
    ensures r.Some? ==> |r.value.1| < |s|
  {
    if !EndsIn(s, '"') then None
    else
      match OpenQuote(ButLast(s))
      case None => None
      case Some(i) => Some((Decode(s[i + 1..|s| - 1]), s[..i]))
  }

  /** Where the number at the end of s starts. */
  function NumberStart(s: string): (r: nat)
    ensures r <= |s|
    ensures s != "" && NumberChar(s[|s| - 1]) ==> r < |s|
  {
    if s == "" || !NumberChar(s[|s| - 1]) then |s| else NumberStart(ButLast(s))
  }

  lemma {:induction false} NumberTail(s: string)
    ensures forall i | NumberStart(s) <= i < |s| :: NumberChar(s[i])
  {
    if s == "" || !NumberChar(s[|s| - 1]) {
    } else {
      NumberTail(ButLast(s));
    }
  }

  /** An integer, if the text is just what an integer is shown as. */
  function ReadNumber(shown: NumberText): Value {
    if shown == ShowInt(ReadInt(shown)) then Int(ReadInt(shown)) else Real(shown)
  }

  /** The number at the end of s, and what stands before it. */
  function ReadNumberEnd(s: string): (r: (Value, string))
    requires s != "" && IsDigit(s[|s| - 1])
    ensures |r.1| < |s|
  {
    var i := NumberStart(s);
    NumberTail(s);
    (ReadNumber(s[i..]), s[..i])
  }

  function ReadValue(s: string): (r: Option<(Value, string)>)
    ensures r.Some? ==> |r.value.1| < |s|
    decreases |s|, 1
  {
    if EndsIn(s, '"') then
      match ReadString(s)
      case None => None
      case Some((text, rest)) => Some((Str(text), rest))
    else if EndsIn(s, '}') then
      if EndsIn(ButLast(s), '{') then Some((Dict([]), ButLast(ButLast(s))))
      else match ReadEntries(ButLast(s))
           case None => None
           case Some((es, rest)) => Some((Dict(es), rest))
    else if EndsIn(s, ']') then
      if EndsIn(ButLast(s), '[') then Some((Arr([]), ButLast(ButLast(s))))
      else match ReadItems(ButLast(s))
           case None => None
           case Some((items, rest)) => Some((Arr(items), rest))
    else if s != "" && IsDigit(s[|s| - 1]) then
      Some(ReadNumberEnd(s))
    else if EndsWith(s, "true") then Some((Bool(true), s[..|s| - 4]))
    else if EndsWith(s, "false") then Some((Bool(false), s[..|s| - 5]))
    else None
  }

  /** Entries up to the opening brace, which is consumed. */
  function ReadEntries(s: string): (r: Option<(seq<Entry>, string)>)
    ensures r.Some? ==> |r.value.1| < |s|
    decreases |s|, 2
  {
    match ReadValue(s)
    case None => None
    case Some((v, beforeValue)) =>
      if !EndsIn(beforeValue, ':') then None
      else
        match ReadString(ButLast(beforeValue))
        case None => None
        case Some((key, beforeKey)) =>
          if EndsIn(beforeKey, '{') then Some(([Entry(key, v)], ButLast(beforeKey)))
          else if EndsIn(beforeKey, ',') then
            match ReadEntries(ButLast(beforeKey))
            case None => None
            case Some((es, rest)) => Some((es + [Entry(key, v)], rest))
          else None
  }

  /** Items up to the opening bracket, which is consumed. */
  function ReadItems(s: string): (r: Option<(seq<Value>, string)>)
    ensures r.Some? ==> |r.value.1| < |s|
    decreases |s|, 2
  {
    match ReadValue(s)
    case None => None
    case Some((v, before)) =>
      if EndsIn(before, '[') then Some(([v], ButLast(before)))
      else if EndsIn(before, ',') then
        match ReadItems(ButLast(before))
        case None => None
        case Some((items, rest)) => Some((items + [v], rest))
      else None
  }

  function Read(text: string): Option<Value> {
    match ReadValue(text)
    case Some((v, "")) => Some(v)
    case _ => None
  }

  // ----- what is read back -----------------------------------------------------------------

  /** A tree as it reads: look-alike escape sequences in keys and strings are replaced, data and
      dates read as strings, identifiers and whole numbers as integers. */
  function Clean(v: Value): Value
    decreases v
  {
    match v
    case Dict(es) => Dict(CleanEntries(es))
    case Arr(items) => Arr(CleanItems(items))
    case Str(s) => Str(Unescape(s))
    case Data(bytes) => Str(Unescape(Base64.Encode(bytes)))
    case Real(shown) => ReadNumber(shown)
    case Date(text) => Str(Unescape(text))
    case Uid(n) => Int(n)
    case _ => v
  }

  function CleanEntries(es: seq<Entry>): (r: seq<Entry>)
    ensures |r| == |es| && forall i | 0 <= i < |r| :: r[i] == Entry(Unescape(es[i].key), Clean(es[i].value))
    decreases es
  {
    if es == [] then []
    else
      var n := |es| - 1;
      CleanEntries(es[..n]) + [Entry(Unescape(es[n].key), Clean(es[n].value))]
  }

  function CleanItems(items: seq<Value>): (r: seq<Value>)
    ensures |r| == |items| && forall i | 0 <= i < |r| :: r[i] == Clean(items[i])
    decreases items
  {
    if items == [] then []
    else
      var n := |items| - 1;
      CleanItems(items[..n]) + [Clean(items[n])]
  }

  /** The normal form of a settings tree: pruned, keys in order, strings as they read. */
  function Normal(lower: Lowercase, v: Value): Value {
    Clean(Pruned(lower, v))
  }

  // ----- reading strings and numbers ---------------------------------------------------------

  lemma {:induction false} QuotesAreEscaped(s: string)
    ensures forall i | 0 <= i < |Encode(s)| && Encode(s)[i] == '"' :: i > 0 && Encode(s)[i - 1] == '\\'
  {
    if s == "" {
    } else {
      QuotesAreEscaped(s[1..]);
      var e, rest := EncodeChar(s[0]), Encode(s[1..]);
      CharQuote(s[0]);
      forall i | 0 <= i < |e + rest| && (e + rest)[i] == '"' ensures i > 0 && (e + rest)[i - 1] == '\\' {
        if i >= |e| {
          assert rest[i - |e|] == '"';
          assert rest[i - |e| - 1] == '\\';
        }
      }
    }
  }

  lemma CharQuote(c: char)
    ensures forall i | 0 <= i < |EncodeChar(c)| && EncodeChar(c)[i] == '"' :: i > 0 && EncodeChar(c)[i - 1] == '\\'
  {
    if c < ' ' {
      HexDigitIsPlain(c as int / 16);
      HexDigitIsPlain(c as int % 16);
      assert HexDigit(c as int / 16) != '"' && HexDigit(c as int % 16) != '"';
    }
  }

  lemma {:induction false} OpenQuoteIs(pre: string, body: string)
    requires pre == "" || !EndsIn(pre, '\\')
    requires forall i | 0 <= i < |body| && body[i] == '"' :: i > 0 && body[i - 1] == '\\'
    ensures OpenQuote(pre + ['"'] + body) == Some(|pre|)
    decreases |body|
  {
    var s := pre + ['"'] + body;
    if body == "" {
      assert s[|pre|] == '"';
    } else {
      var shorter := ButLast(body);
      assert s[..|s| - 1] == pre + ['"'] + shorter;
      assert s[|s| - 1] == body[|body| - 1];
      if body[|body| - 1] == '"' {
        assert s[|s| - 2] == body[|body| - 2] == '\\';
      }
      OpenQuoteIs(pre, shorter);
    }
  }

  lemma ReadQuoted(pre: string, s: string)
    requires pre == "" || !EndsIn(pre, '\\')
    ensures ReadString(pre + Quoted(s)) == Some((Unescape(s), pre))
  {
    var body := Encode(s);
    var text := pre + Quoted(s);
    QuotesAreEscaped(s);
    OpenQuoteIs(pre, body);
    DecodeEncode(s);
    QuotedParts(pre, body);
  }

  lemma QuotedParts(pre: string, body: string)
    ensures var text := pre + (['"'] + body + ['"']);
            && EndsIn(text, '"')
            && ButLast(text) == pre + ['"'] + body
            && text[|pre| + 1..|text| - 1] == body
            && text[..|pre|] == pre
  {
  }

  lemma {:induction false} NumberStartIs(pre: string, digits: string)
    requires pre == "" || !NumberChar(pre[|pre| - 1])
    requires forall i | 0 <= i < |digits| :: NumberChar(digits[i])
    ensures NumberStart(pre + digits) == |pre|
    decreases |digits|
  {
    if digits == "" {
      assert pre + digits == pre;
    } else {
      assert ButLast(pre + digits) == pre + ButLast(digits);
      NumberStartIs(pre, ButLast(digits));
    }
  }

  // ----- reading what was printed --------------------------------------------------------------

  /** What may stand to the left of a printed value. */
  predicate BeforeValue(pre: string) {
    pre == "" || EndsIn(pre, '[') || EndsIn(pre, ',') || EndsIn(pre, ':')
  }

  /** What may stand to the left of a printed key. */
  predicate BeforeKey(pre: string) {
    EndsIn(pre, '{') || EndsIn(pre, ',')
  }

  predicate ValueEnd(c: char) {
    c == '"' || c == '}' || c == ']' || c == 'e' || IsDigit(c)
  }

  lemma PrintEnds(v: Value)
    ensures Print(v) != "" && ValueEnd(Print(v)[|Print(v)| - 1])
  {
    match v
    case Int(n) => IntReads(n);
    case Uid(n) => IntReads(n);
    case _ =>
  }

  lemma EntriesEnd(es: seq<Entry>)
    requires es != []
    ensures PrintEntries(es) != "" && ValueEnd(PrintEntries(es)[|PrintEntries(es)| - 1])
  {
    var n := |es| - 1;
    EntryEnds(es[n]);
    if n > 0 {
      EndOfConcat(PrintEntries(es[..n]) + ",", PrintEntry(es[n]));
    }
  }

  lemma EntryEnds(e: Entry)
    ensures PrintEntry(e) != "" && ValueEnd(PrintEntry(e)[|PrintEntry(e)| - 1])
  {
    PrintEnds(e.value);
    EndOfConcat(Quoted(e.key) + ":", Print(e.value));
  }

  lemma EndOfConcat(a: string, b: string)
    requires b != ""
    ensures a + b != "" && (a + b)[|a + b| - 1] == b[|b| - 1]
  {
  }

  lemma ItemsEnd(items: seq<Value>)
    requires items != []
    ensures PrintItems(items) != "" && ValueEnd(PrintItems(items)[|PrintItems(items)| - 1])
  {
    var n := |items| - 1;
    PrintEnds(items[n]);
    if n > 0 {
      EndOfConcat(PrintItems(items[..n]) + ",", Print(items[n]));
    }
  }

  lemma ReadNumberCase(s: string)
    requires s != "" && IsDigit(s[|s| - 1])
    ensures ReadValue(s) == Some(ReadNumberEnd(s))
  {
    var last := s[|s| - 1];
    assert last != '"' && last != '}' && last != ']';
  }

  lemma ReadShown(pre: string, shown: NumberText)
    requires BeforeValue(pre)
    ensures ReadValue(pre + shown) == Some((ReadNumber(shown), pre))
  {
    NumberStartIs(pre, shown);
    CutConcat(pre, shown);
    ReadNumberCase(pre + shown);
  }

  lemma IntIsNumberText(n: int)
    ensures IsNumberText(ShowInt(n)) && ReadNumber(ShowInt(n)) == Int(n)
  {
    IntReads(n);
  }

  lemma ReadInteger(pre: string, n: int)
    requires BeforeValue(pre)
    ensures ReadValue(pre + ShowInt(n)) == Some((Int(n), pre))
  {
    IntIsNumberText(n);
    ReadShown(pre, ShowInt(n));
  }

  lemma ReadBool(pre: string, b: bool)
    ensures ReadValue(pre + (if b then "true" else "false")) == Some((Bool(b), pre))
  {
    var word := if b then "true" else "false";
    var text := pre + word;
    CutConcat(pre, word);
    assert text[|text| - |word|..] == word;
    assert text[|text| - 1] == 'e';
    if !b {
      assert text[|text| - 4] == 'a';
      assert text[|text| - 4..][0] == 'a';
    }
  }

  lemma ReadText(pre: string, s: string)
    requires BeforeValue(pre)
    ensures ReadValue(pre + Quoted(s)) == Some((Str(Unescape(s)), pre))
  {
    ReadQuoted(pre, s);
    QuotedParts(pre, Encode(s));
  }

  /** Wrapping a body in braces or brackets. */
  lemma Wrapped(pre: string, open: char, body: string, close: char)
    ensures var text := pre + ([open] + body + [close]);
            && EndsIn(text, close)
            && ButLast(text) == pre + [open] + body
            && (body == "" ==> EndsIn(ButLast(text), open) && ButLast(ButLast(text)) == pre)
            && (body != "" ==> ButLast(text)[|ButLast(text)| - 1] == body[|body| - 1])
  {
    var text := pre + ([open] + body + [close]);
    assert text[|text| - 1] == close;
    assert ButLast(text) == pre + [open] + body;
    if body == "" {
      assert ButLast(ButLast(text)) == pre;
    }
  }

  /** Reading a printed value gives its clean form and consumes exactly its text. */
  lemma {:induction false} ReadPrinted(v: Value, pre: string)
    requires BeforeValue(pre)
    ensures ReadValue(pre + Print(v)) == Some((Clean(v), pre))
    decreases v
  {
    match v
    case Dict(es) =>
      if es != [] {
        ReadPrintedEntries(es, pre);
      }
      ReadDict(es, pre);
    case Arr(items) =>
      if items != [] {
        ReadPrintedItems(items, pre);
      }
      ReadArr(items, pre);
    case _ => ReadLeaf(v, pre);
  }

  lemma ReadDict(es: seq<Entry>, pre: string)
    requires es != [] ==> ReadEntries(pre + ['{'] + PrintEntries(es)) == Some((CleanEntries(es), pre))
    ensures ReadValue(pre + Print(Dict(es))) == Some((Dict(CleanEntries(es)), pre))
  {
    Wrapped(pre, '{', PrintEntries(es), '}');
    if es != [] {
      EntriesEnd(es);
    }
  }

  lemma ReadArr(items: seq<Value>, pre: string)
    requires items != [] ==> ReadItems(pre + ['['] + PrintItems(items)) == Some((CleanItems(items), pre))
    ensures ReadValue(pre + Print(Arr(items))) == Some((Arr(CleanItems(items)), pre))
  {
    Wrapped(pre, '[', PrintItems(items), ']');
    if items != [] {
      ItemsEnd(items);
    }
  }

  lemma ReadLeaf(v: Value, pre: string)
    requires BeforeValue(pre) && !v.Dict? && !v.Arr?
    ensures ReadValue(pre + Print(v)) == Some((Clean(v), pre))
  {
    match v
    case Bool(b) => ReadBool(pre, b);
    case Int(n) => ReadInteger(pre, n);
    case Str(s) => ReadText(pre, s);
    case Data(bytes) => ReadText(pre, Base64.Encode(bytes));
    case Real(shown) => ReadShown(pre, shown);
    case Date(text) => ReadText(pre, text);
    case Uid(n) => ReadInteger(pre, n);
  }

  lemma {:induction false} ReadPrintedEntries(es: seq<Entry>, pre: string)
    requires es != []
    ensures ReadEntries(pre + ['{'] + PrintEntries(es)) == Some((CleanEntries(es), pre))
    decreases es
  {
    var n := |es| - 1;
    var e := es[n];
    var head := EntriesBefore(es, pre);
    EntriesBeforeLast(es, pre);
    ReadPrinted(e.value, head + Quoted(e.key) + ":");
    ReadPrintedEntry(head, e);
    if n > 0 {
      ReadPrintedEntries(es[..n], pre);
    } else {
      assert CleanEntries(es) == [Entry(Unescape(e.key), Clean(e.value))];
    }
  }

  /** The text before the last entry. */
  function EntriesBefore(es: seq<Entry>, pre: string): string
    requires es != []
  {
    if |es| == 1 then pre + ['{'] else pre + ['{'] + PrintEntries(es[..|es| - 1]) + ","
  }

  lemma EntriesBeforeLast(es: seq<Entry>, pre: string)
    requires es != []
    ensures pre + ['{'] + PrintEntries(es) == EntriesBefore(es, pre) + PrintEntry(es[|es| - 1])
    ensures |es| == 1 ==> EndsIn(EntriesBefore(es, pre), '{') && ButLast(EntriesBefore(es, pre)) == pre
    ensures |es| > 1 ==> EndsIn(EntriesBefore(es, pre), ',')
    ensures |es| > 1 ==> ButLast(EntriesBefore(es, pre)) == pre + ['{'] + PrintEntries(es[..|es| - 1])
  {
    if |es| == 1 {
      EndOpen(pre, '{');
    } else {
      var start, body := pre + ['{'], PrintEntries(es[..|es| - 1]);
      Regroup(start, body, ",", PrintEntry(es[|es| - 1]));
      EndComma(start + body);
    }
  }

  lemma EndOpen(pre: string, open: char)
    ensures EndsIn(pre + [open], open) && ButLast(pre + [open]) == pre
  {
  }

  lemma EndComma(text: string)
    ensures EndsIn(text + ",", ',') && ButLast(text + ",") == text
  {
  }

  lemma ReadPrintedEntry(head: string, e: Entry)
    requires BeforeKey(head)
    requires ReadValue(head + Quoted(e.key) + ":" + Print(e.value))
        == Some((Clean(e.value), head + Quoted(e.key) + ":"))
    ensures var entry := Entry(Unescape(e.key), Clean(e.value));
            && (EndsIn(head, '{') ==> ReadEntries(head + PrintEntry(e)) == Some(([entry], ButLast(head))))
            && (EndsIn(head, ',') && ReadEntries(ButLast(head)).Some? ==>
                  ReadEntries(head + PrintEntry(e))
                  == Some((ReadEntries(ButLast(head)).value.0 + [entry], ReadEntries(ButLast(head)).value.1)))
  {
    var entry := Entry(Unescape(e.key), Clean(e.value));
    var beforeValue := head + Quoted(e.key) + ":";
    ConcatFour(head, Quoted(e.key), ":", Print(e.value));
    ConcatThree(Quoted(e.key), ":", Print(e.value));
    ReadQuoted(head, e.key);
    assert ButLast(beforeValue) == head + Quoted(e.key);
    if EndsIn(head, '{') {
      ReadFirstEntry(head + PrintEntry(e), entry, beforeValue, head);
    } else if ReadEntries(ButLast(head)).Some? {
      ReadNextEntry(head + PrintEntry(e), entry, beforeValue, head);
    }
  }

  lemma ReadFirstEntry(s: string, e: Entry, beforeValue: string, beforeKey: string)
    requires ReadValue(s) == Some((e.value, beforeValue)) && EndsIn(beforeValue, ':')
    requires ReadString(ButLast(beforeValue)) == Some((e.key, beforeKey)) && EndsIn(beforeKey, '{')
    ensures ReadEntries(s) == Some(([e], ButLast(beforeKey)))
  {
  }

  lemma ReadNextEntry(s: string, e: Entry, beforeValue: string, beforeKey: string)
    requires ReadValue(s) == Some((e.value, beforeValue)) && EndsIn(beforeValue, ':')
    requires ReadString(ButLast(beforeValue)) == Some((e.key, beforeKey)) && EndsIn(beforeKey, ',')
    requires ReadEntries(ButLast(beforeKey)).Some?
    ensures var (es, rest) := ReadEntries(ButLast(beforeKey)).value;
            ReadEntries(s) == Some((es + [e], rest))
  {
  }

  lemma {:induction false} ReadPrintedItems(items: seq<Value>, pre: string)
    requires items != []
    ensures ReadItems(pre + ['['] + PrintItems(items)) == Some((CleanItems(items), pre))
    decreases items
  {
    var n := |items| - 1;
    var head := if n == 0 then pre + ['['] else pre + ['['] + PrintItems(items[..n]) + ",";
    assert pre + ['['] + PrintItems(items) == head + Print(items[n]) by {
      if n > 0 {
        Regroup(pre + ['['], PrintItems(items[..n]), ",", Print(items[n]));
      }
    }
    ReadPrinted(items[n], head);
    if n == 0 {
      assert ButLast(head) == pre;
      assert CleanItems(items) == [Clean(items[0])];
    } else {
      assert ButLast(head) == pre + ['['] + PrintItems(items[..n]);
      ReadPrintedItems(items[..n], pre);
    }
  }

  lemma Regroup(a: string, b: string, c: string, d: string)
    ensures a + (b + c + d) == a + b + c + d
  {
  }

  // ----- the printer and the reader together -----------------------------------------------------

  /** The reader recovers the normal form of every settings tree from its SEB-JSON. */
  lemma ReadJson(lower: Lowercase, v: Value)
    ensures Read(Json(lower, v)) == Some(Normal(lower, v))
  {
    ReadPrinted(Pruned(lower, v), "");
    assert "" + Json(lower, v) == Json(lower, v);
  }

  lemma {:induction false} PrintClean(v: Value)
    ensures Print(Clean(v)) == Print(v)
    decreases v
  {
    match v
    case Dict(es) => PrintCleanEntries(es);
    case Arr(items) => PrintCleanItems(items);
    case Str(s) => EncodeUnescape(s);
    case Data(bytes) => EncodeUnescape(Base64.Encode(bytes));
    case Date(text) => EncodeUnescape(text);
    case _ =>
  }

  lemma {:induction false} PrintCleanEntries(es: seq<Entry>)
    ensures PrintEntries(CleanEntries(es)) == PrintEntries(es)
    decreases es
  {
    if es == [] {
    } else {
      var n := |es| - 1;
      PrintCleanEntries(es[..n]);
      EncodeUnescape(es[n].key);
      PrintClean(es[n].value);
      assert CleanEntries(es)[..n] == CleanEntries(es[..n]);
    }
  }

  lemma {:induction false} PrintCleanItems(items: seq<Value>)
    ensures PrintItems(CleanItems(items)) == PrintItems(items)
    decreases items
  {
    if items == [] {
    } else {
      var n := |items| - 1;
      PrintCleanItems(items[..n]);
      PrintClean(items[n]);
      assert CleanItems(items)[..n] == CleanItems(items[..n]);
    }
  }

  /** Exactly when two settings trees have the same SEB-JSON: when they have the same normal form. */
  lemma JsonCollision(lower: Lowercase, v: Value, w: Value)
    ensures Json(lower, v) == Json(lower, w) <==> Normal(lower, v) == Normal(lower, w)
  {
    ReadJson(lower, v);
    ReadJson(lower, w);
    PrintClean(Pruned(lower, v));
    PrintClean(Pruned(lower, w));
  }
}
