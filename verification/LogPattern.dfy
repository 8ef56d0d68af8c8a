/** include/log_system/Logformat.hpp: how a log pattern is read. */
module LogPatterns {
  import opened Decimals
  import opened Wrappers

  /** An entry of fmt_order: text ("other"), or a directive character with its braced argument. */
  datatype Item = Text(text: string) | Directive(key: char, arg: string)

  datatype FormatItem = Time(format: string) | Tab | Thread | Level | LoggerName | File | Line | Payload | Newline
                      | Other(text: string)

  function CreateFormatItem(item: Item): FormatItem {
    match item
    case Text(text) => Other(text)
    case Directive(key, arg) =>
      if key == 'd' then Time(arg)
      else if key == 'T' then Tab
      else if key == 't' then Thread
      else if key == 'p' then Level
      else if key == 'c' then LoggerName
      else if key == 'f' then File
      else if key == 'l' then Line
      else if key == 'm' then Payload
      else if key == 'n' then Newline
      else Other("%" + [key] + arg)
  }

  function CreateAll(order: seq<Item>): seq<FormatItem> {
    if order == [] then [] else CreateAll(order[..|order| - 1]) + [CreateFormatItem(order[|order| - 1])]
  }

  // ---- the pattern language ----

  /** The position of the first '}' at or behind `from`, or the end. */
  function CloseOf(p: string, from: nat): (j: nat)
    requires from <= |p|
    ensures from <= j <= |p| && '}' !in p[from..j] && (j < |p| ==> p[j] == '}')
    decreases |p| - from
  {
    if from == |p| || p[from] == '}' then from
    else
      var j := CloseOf(p, from + 1);
      assert p[from..j] == [p[from]] + p[from + 1..j];
      j
  }

  function Before(text: string): seq<Item> {
    if text == "" then [] else [Text(text)]
  }

  /** The first directive of p, which begins with a '%' that is not doubled, and where it ends. */
  function ReadDirective(p: string): (r: Option<(Item, nat)>)
    requires p != ""
    ensures r.Some? ==> r.value.0.Directive? && 2 <= r.value.1 <= |p| && '}' !in r.value.0.arg
    ensures r.Some? ==> r.value.0.key == p[1]
  {
    if |p| == 1 then None
    else if |p| > 2 && p[2] == '{' then
      var j := CloseOf(p, 3);
      if j == |p| then None else Some((Directive(p[1], p[3..j]), j + 1))
    else Some((Directive(p[1], ""), 2))
  }

  /** What p means behind the text that was read since the last directive.  Text at the very end
      is dropped: it is only added to the list in front of a directive. */
  function Parsed(p: string, text: string): Option<seq<Item>>
    decreases |p|
  {
    if p == "" then Some([])
    else if p[0] != '%' then Parsed(p[1..], text + [p[0]])
    else if |p| > 1 && p[1] == '%' then Parsed(p[2..], text + "%")
    else
      var d := ReadDirective(p);
      if d.None? then None
      else
        var rest := Parsed(p[d.value.1..], "");
        if rest.None? then None else Some(Before(text) + [d.value.0] + rest.value)
  }

  // ---- the parser ----

  /** What is still to be read from pos on, behind what was read already. */
  ghost predicate Ahead(pattern: string, pos: nat, order: seq<Item>, text: string) {
    pos <= |pattern| && Parsed(pattern, "") == Behind(order, Parsed(pattern[pos..], text))
  }

  ghost function Behind(order: seq<Item>, rest: Option<seq<Item>>): Option<seq<Item>> {
    if rest.None? then None else Some(order + rest.value)
  }

  lemma AheadBegins(pattern: string)
    ensures Ahead(pattern, 0, [], "")
  {
    assert pattern[0..] == pattern;
    assert Parsed(pattern, "").Some? ==> [] + Parsed(pattern, "").value == Parsed(pattern, "").value;
  }

  lemma AheadText(pattern: string, pos: nat, order: seq<Item>, text: string)
    requires pos < |pattern| && Ahead(pattern, pos, order, text)
    ensures pattern[pos] != '%' ==> Ahead(pattern, pos + 1, order, text + [pattern[pos]])
    ensures pattern[pos] == '%' && pos + 1 < |pattern| && pattern[pos + 1] == '%' ==>
      Ahead(pattern, pos + 2, order, text + "%")
  {
    var p := pattern[pos..];
    assert p[1..] == pattern[pos + 1..];
    if |p| > 1 {
      assert p[2..] == pattern[pos + 2..];
    }
  }

  predicate AtDirective(pattern: string, pos: nat) {
    pos < |pattern| && pattern[pos] == '%' && !(pos + 1 < |pattern| && pattern[pos + 1] == '%')
  }

  lemma AheadDirective(pattern: string, pos: nat, order: seq<Item>, text: string)
    requires AtDirective(pattern, pos) && Ahead(pattern, pos, order, text)
    ensures var d := ReadDirective(pattern[pos..]);
      if d.None? then Parsed(pattern, "") == None
      else Ahead(pattern, pos + d.value.1, order + Before(text) + [d.value.0], "")
  {
    var p := pattern[pos..];
    var d := ReadDirective(p);
    if d.Some? {
      assert p[d.value.1..] == pattern[pos + d.value.1..];
      var rest := Parsed(p[d.value.1..], "");
      if rest.Some? {
        assert order + (Before(text) + [d.value.0] + rest.value)
            == (order + Before(text) + [d.value.0]) + rest.value;
      }
    }
  }

  /** Positions in the pattern and in its rest. */
  lemma {:induction false} CloseShift(p: string, pos: nat, from: nat)
    requires pos <= from <= |p|
    ensures CloseOf(p[pos..], from - pos) == CloseOf(p, from) - pos
    decreases |p| - from
  {
    if from < |p| && p[from] != '}' {
      CloseShift(p, pos, from + 1);
    }
  }

  /** The nested loop: the argument up to the closing brace. */
  method ScanArgument(pattern: string, from: nat) returns (val: string, pos: nat)
    requires from <= |pattern|
    ensures pos == CloseOf(pattern, from) && val == pattern[from..pos]
  {
    val, pos := "", from;
    while pos < |pattern| && pattern[pos] != '}'
      invariant from <= pos <= |pattern| && val == pattern[from..pos]
      invariant CloseOf(pattern, from) == CloseOf(pattern, pos)
    {
      val := val + [pattern[pos]];
      pos := pos + 1;
    }
  }

  /** The body of the main loop behind a '%' that is not doubled. */
  method ScanDirective(pattern: string, start: nat) returns (ok: bool, key: char, val: string, pos: nat)
    requires AtDirective(pattern, start)
    ensures ReadDirective(pattern[start..]) == if ok then Some((Directive(key, val), pos - start)) else None
    ensures ok ==> start + 2 <= pos <= |pattern|
  {
    ok, key, val := false, '%', "";
    pos := start + 1;
    if pos == |pattern| {
      return;
    }
    key := pattern[pos];
    pos := pos + 1;
    if pos < |pattern| && pattern[pos] == '{' {
      CloseShift(pattern, start, pos + 1);
      val, pos := ScanArgument(pattern, pos + 1);
      if pos == |pattern| {
        return;
      }
      assert pattern[start..][3..pos - start] == pattern[start + 3..pos];
      pos := pos + 1;
    }
    ok := true;
  }

  method ParsePattern(pattern: string) returns (ok: bool, items: seq<FormatItem>)
    ensures ok <==> Parsed(pattern, "").Some?
    ensures items == if ok then CreateAll(Parsed(pattern, "").value) else []
  {
    items := [];
    var order: seq<Item> := [];
    var pos := 0;
    var val := "";
    AheadBegins(pattern);
    while pos < |pattern|
      invariant Ahead(pattern, pos, order, val)
    {
      AheadText(pattern, pos, order, val);
      if pattern[pos] != '%' {
        val := val + [pattern[pos]];
        pos := pos + 1;
        continue;
      }
      if pos + 1 < |pattern| && pattern[pos + 1] == '%' {
        val := val + "%";
        pos := pos + 2;
        continue;
      }
      AheadDirective(pattern, pos, order, val);
      if val != "" {
        order := order + [Text(val)];
      } else {
        assert order + [] == order;
      }
      var good, key, arg, next := ScanDirective(pattern, pos);
      if !good {
        return false, [];
      }
      order := order + [Directive(key, arg)];
      val, pos := "", next;
    }
    assert Parsed(pattern[pos..], val) == Some([]) && order + [] == order;
    ok := true;
    var i := 0;
    while i < |order|
      invariant 0 <= i <= |order| && items == CreateAll(order[..i])
    {
      assert order[..i + 1][..i] == order[..i];
      items := items + [CreateFormatItem(order[i])];
      i := i + 1;
    }
    assert order[..i] == order;
  }

  // ---- what a line of the log looks like ----

  /** A record, with the time as strftime gets it and the thread id as it is printed. */
  datatype Logmsg = Logmsg(time: int, level: string, file: string, line: nat, tid: string, logger: string, payload: string)

  /** FormatItem::format; strftime is given. */
  function Rendered(item: FormatItem, msg: Logmsg, strftime: (string, int) -> string): string {
    match item
    case Time(format) => strftime(format, msg.time)
    case Tab => "\t"
    case Thread => msg.tid
    case Level => msg.level
    case LoggerName => msg.logger
    case File => msg.file
    case Line => Decimal(msg.line)
    case Payload => msg.payload
    case Newline => "\n"
    case Other(text) => text
  }

  function RenderedAll(items: seq<FormatItem>, msg: Logmsg, strftime: (string, int) -> string): string {
    if items == [] then ""
    else RenderedAll(items[..|items| - 1], msg, strftime) + Rendered(items[|items| - 1], msg, strftime)
  }

  /** Formatter::format: without any item the message alone. */
  method Format(items: seq<FormatItem>, msg: Logmsg, strftime: (string, int) -> string) returns (line: string)
    ensures line == if items == [] then msg.payload else RenderedAll(items, msg, strftime)
  {
    if items == [] {
      return msg.payload;
    }
    line := "";
    for i := 0 to |items|
      invariant line == RenderedAll(items[..i], msg, strftime)
    {
      assert items[..i + 1][..i] == items[..i];
      line := line + Rendered(items[i], msg, strftime);
    }
    assert items[..|items|] == items;
  }

  /** The table of directives that the comment above Formatter gives. */
  lemma DirectiveTable(arg: string, msg: Logmsg, strftime: (string, int) -> string)
    ensures Rendered(CreateFormatItem(Directive('d', arg)), msg, strftime) == strftime(arg, msg.time)
    ensures Rendered(CreateFormatItem(Directive('T', arg)), msg, strftime) == "\t"
    ensures Rendered(CreateFormatItem(Directive('t', arg)), msg, strftime) == msg.tid
    ensures Rendered(CreateFormatItem(Directive('p', arg)), msg, strftime) == msg.level
    ensures Rendered(CreateFormatItem(Directive('c', arg)), msg, strftime) == msg.logger
    ensures Rendered(CreateFormatItem(Directive('f', arg)), msg, strftime) == msg.file
    ensures Rendered(CreateFormatItem(Directive('l', arg)), msg, strftime) == Decimal(msg.line)
    ensures Rendered(CreateFormatItem(Directive('m', arg)), msg, strftime) == msg.payload
    ensures Rendered(CreateFormatItem(Directive('n', arg)), msg, strftime) == "\n"
  {
  }

  /** An unknown directive prints itself and its argument, without the braces. */
  lemma OtherItems(key: char, arg: string, text: string, msg: Logmsg, strftime: (string, int) -> string)
    ensures key !in {'d', 'T', 't', 'p', 'c', 'f', 'l', 'm', 'n'} ==>
      Rendered(CreateFormatItem(Directive(key, arg)), msg, strftime) == "%" + [key] + arg
    ensures Rendered(CreateFormatItem(Text(text)), msg, strftime) == text
  {
  }

  /** The line for a list of items: that of the first, then that of the others. */
  function LineOf(order: seq<Item>, msg: Logmsg, strftime: (string, int) -> string): string {
    if order == [] then "" else Rendered(CreateFormatItem(order[0]), msg, strftime) + LineOf(order[1..], msg, strftime)
  }

  lemma {:induction false} LineOfSnoc(order: seq<Item>, item: Item, msg: Logmsg, strftime: (string, int) -> string)
    ensures LineOf(order + [item], msg, strftime)
         == LineOf(order, msg, strftime) + Rendered(CreateFormatItem(item), msg, strftime)
    decreases |order|
  {
    if order == [] {
      assert order + [item] == [item] && [item][1..] == [];
    } else {
      assert (order + [item])[1..] == order[1..] + [item];
      LineOfSnoc(order[1..], item, msg, strftime);
    }
  }

  lemma CreateAllSnoc(order: seq<Item>)
    requires order != []
    ensures CreateAll(order) == CreateAll(order[..|order| - 1]) + [CreateFormatItem(order[|order| - 1])]
  {
  }

  lemma RenderedSnoc(items: seq<FormatItem>, item: FormatItem, msg: Logmsg, strftime: (string, int) -> string)
    ensures RenderedAll(items + [item], msg, strftime) == RenderedAll(items, msg, strftime) + Rendered(item, msg, strftime)
  {
    assert (items + [item])[..|items|] == items;
  }

  lemma {:induction false} LineOfAll(order: seq<Item>, msg: Logmsg, strftime: (string, int) -> string)
    ensures RenderedAll(CreateAll(order), msg, strftime) == LineOf(order, msg, strftime)
  {
    if order != [] {
      var init, last := order[..|order| - 1], order[|order| - 1];
      LineOfAll(init, msg, strftime);
      CreateAllSnoc(order);
      RenderedSnoc(CreateAll(init), CreateFormatItem(last), msg, strftime);
      LineOfSnoc(init, last, msg, strftime);
      assert order == init + [last];
    }
  }

  // ---- the printer ----

  function Escaped(text: string): string {
    if text == "" then ""
    else (if text[0] == '%' then "%%" else [text[0]]) + Escaped(text[1..])
  }

  function PrintItem(item: Item): string {
    match item
    case Text(text) => Escaped(text)
    case Directive(key, arg) => "%" + [key] + "{" + arg + "}"
  }

  function Print(items: seq<Item>): string {
    if items == [] then "" else PrintItem(items[0]) + Print(items[1..])
  }

  predicate Readable(item: Item) {
    match item
    case Text(text) => text != ""
    case Directive(key, arg) => key != '%' && '}' !in arg
  }

  /** Text is not empty, comes in one piece, and a directive is last. */
  predicate Canonical(items: seq<Item>) {
    items == []
    || (&& Readable(items[0])
        && (items[0].Text? ==> |items| > 1 && items[1].Directive?)
        && Canonical(items[1..]))
  }

  lemma Regroup<T>(a: seq<T>, b: seq<T>, c: seq<T>)
    ensures (a + b) + c == a + (b + c)
  {
  }

  lemma CharIsRead(c: char, more: string, before: string)
    ensures Parsed((if c == '%' then "%%" else [c]) + more, before) == Parsed(more, before + [c])
  {
    var p := (if c == '%' then "%%" else [c]) + more;
    if c == '%' {
      assert p[2..] == more;
    } else {
      assert p[1..] == more;
    }
  }

  lemma {:induction false} EscapedIsRead(text: string, rest: string, before: string)
    ensures Parsed(Escaped(text) + rest, before) == Parsed(rest, before + text)
    decreases |text|
  {
    if text == "" {
      assert "" + rest == rest && before + "" == before;
    } else {
      var c := text[0];
      CharIsRead(c, Escaped(text[1..]) + rest, before);
      Regroup(if c == '%' then "%%" else [c], Escaped(text[1..]), rest);
      EscapedIsRead(text[1..], rest, before + [c]);
      Regroup(before, [c], text[1..]);
      assert [c] + text[1..] == text;
    }
  }

  lemma {:induction false} CloseFound(p: string, from: nat, j: nat)
    requires from <= j < |p| && p[j] == '}' && '}' !in p[from..j]
    ensures CloseOf(p, from) == j
    decreases |p| - from
  {
    if from < j {
      assert p[from] in p[from..j];
      assert p[from..j] == [p[from]] + p[from + 1..j];
      CloseFound(p, from + 1, j);
    }
  }

  lemma DirectiveIsRead(key: char, arg: string, rest: string)
    requires key != '%' && '}' !in arg
    ensures var p := PrintItem(Directive(key, arg)) + rest;
      && ReadDirective(p) == Some((Directive(key, arg), |arg| + 4)) && p[|arg| + 4..] == rest
      && p[0] == '%' && p[1] == key
  {
    var p := PrintItem(Directive(key, arg)) + rest;
    assert p == ("%" + [key] + "{") + (arg + ("}" + rest));
    assert p[3..3 + |arg|] == arg;
    CloseFound(p, 3, 3 + |arg|);
  }

  lemma DirectiveThenRest(key: char, arg: string, rest: string, text: string, items: seq<Item>)
    requires key != '%' && '}' !in arg && Parsed(rest, "") == Some(items)
    ensures Parsed(PrintItem(Directive(key, arg)) + rest, text) == Some(Before(text) + ([Directive(key, arg)] + items))
  {
    DirectiveIsRead(key, arg, rest);
    Regroup(Before(text), [Directive(key, arg)], items);
  }

  lemma {:induction false} PrintedIsRead(items: seq<Item>, text: string)
    requires Canonical(items) && (text != "" ==> items != [] && items[0].Directive?)
    ensures Parsed(Print(items), text) == Some(Before(text) + items)
    decreases |items|
  {
    if items == [] {
      assert Before(text) + items == [];
    } else {
      var rest, tail := Print(items[1..]), items[1..];
      assert items == [items[0]] + tail;
      match items[0]
      case Text(t) => TextThenRest(t, tail);
      case Directive(key, arg) =>
        PrintedIsRead(tail, "");
        assert Before("") + tail == tail;
        DirectiveThenRest(key, arg, rest, text, tail);
    }
  }

  lemma {:induction false} TextThenRest(t: string, tail: seq<Item>)
    requires t != "" && tail != [] && tail[0].Directive? && Canonical(tail)
    ensures Parsed(Escaped(t) + Print(tail), "") == Some(Before("") + ([Text(t)] + tail))
    decreases |tail| + 1, 0
  {
    EscapedIsRead(t, Print(tail), "");
    assert "" + t == t;
    PrintedIsRead(tail, t);
    assert Before("") + ([Text(t)] + tail) == [Text(t)] + tail;
  }

  /** A directive without an argument needs no braces. */
  lemma BareDirectiveIsRead(key: char, rest: string, text: string, items: seq<Item>)
    requires key != '%' && (rest == "" || rest[0] != '{') && Parsed(rest, "") == Some(items)
    ensures Parsed("%" + [key] + rest, text) == Some(Before(text) + [Directive(key, "")] + items)
  {
    var p := "%" + [key] + rest;
    assert p[2..] == rest && ReadDirective(p) == Some((Directive(key, ""), 2));
  }

  lemma BracedDirectiveIsRead(key: char, arg: string, rest: string, text: string, items: seq<Item>)
    requires key != '%' && '}' !in arg && Parsed(rest, "") == Some(items)
    ensures Parsed("%" + [key] + "{" + arg + "}" + rest, text) == Some(Before(text) + [Directive(key, arg)] + items)
  {
    DirectiveThenRest(key, arg, rest, text, items);
    assert "%" + [key] + "{" + arg + "}" + rest == PrintItem(Directive(key, arg)) + rest;
    assert Before(text) + ([Directive(key, arg)] + items) == Before(text) + [Directive(key, arg)] + items;
  }

  lemma {:induction false} PlainThenRest(plain: string, rest: string, text: string)
    requires '%' !in plain
    ensures Parsed(plain + rest, text) == Parsed(rest, text + plain)
    decreases |plain|
  {
    if plain == "" {
      assert plain + rest == rest && text + plain == text;
    } else {
      assert plain[0] in plain && (plain + rest)[1..] == plain[1..] + rest;
      PlainThenRest(plain[1..], rest, text + [plain[0]]);
      assert (text + [plain[0]]) + plain[1..] == text + plain;
    }
  }

  /** Text, and then a directive without an argument. */
  function Segment(plain: string, key: char, rest: string): string {
    plain + ("%" + [key] + rest)
  }

  /** What a pattern and its line become when a segment is put in front. */
  lemma SegmentFirst(plain: string, key: char, rest: string, items: seq<Item>, msg: Logmsg,
                     strftime: (string, int) -> string) returns (all: seq<Item>)
    requires '%' !in plain && key != '%' && (rest == "" || rest[0] != '{') && (plain == "" || plain[0] != '{')
    requires Parsed(rest, "") == Some(items)
    ensures Parsed(Segment(plain, key, rest), "") == Some(all) && Segment(plain, key, rest)[0] != '{'
    ensures var line := Rendered(CreateFormatItem(Directive(key, "")), msg, strftime) + LineOf(items, msg, strftime);
      LineOf(all, msg, strftime) == if plain == "" then line else plain + line
  {
    PlainThenRest(plain, "%" + [key] + rest, "");
    assert "" + plain == plain;
    BareDirectiveIsRead(key, rest, plain, items);
    all := Before(plain) + [Directive(key, "")] + items;
    LineOfTwo(plain, Directive(key, ""), items, msg, strftime);
  }

  lemma LineOfTwo(plain: string, item: Item, items: seq<Item>, msg: Logmsg, strftime: (string, int) -> string)
    ensures var line := LineOf(Before(plain) + [item] + items, msg, strftime);
      line == if plain == "" then Rendered(CreateFormatItem(item), msg, strftime) + LineOf(items, msg, strftime)
              else plain + (Rendered(CreateFormatItem(item), msg, strftime) + LineOf(items, msg, strftime))
  {
    var tail := [item] + items;
    assert tail[1..] == items;
    if plain == "" {
      assert Before(plain) + [item] + items == tail;
    } else {
      var all := Before(plain) + [item] + items;
      assert all[0] == Text(plain) && all[1..] == tail;
    }
  }

  /** The pattern that a Formatter has when it is given none:
      "[%d{%H:%M:%S}][%t][%c][%f:%l][%p]%T%m%n". */
  function DefaultPattern(): string {
    "[" + ("%" + ['d'] + "{" + "%H:%M:%S" + "}" + BehindTime())
  }

  function BehindTime(): string {
    Segment("][", 't', Segment("][", 'c', Segment("][", 'f', Segment(":", 'l', Segment("][", 'p', BehindLevel())))))
  }

  function BehindLevel(): string {
    Segment("]", 'T', Segment("", 'm', Segment("", 'n', "")))
  }

  lemma LineBehindLevel(msg: Logmsg, strftime: (string, int) -> string) returns (items: seq<Item>)
    ensures Parsed(BehindLevel(), "") == Some(items) && BehindLevel()[0] != '{'
    ensures LineOf(items, msg, strftime) == "]" + ("\t" + (msg.payload + ("\n" + "")))
  {
    DirectiveTable("", msg, strftime);
    items := SegmentFirst("", 'n', "", [], msg, strftime);
    items := SegmentFirst("", 'm', Segment("", 'n', ""), items, msg, strftime);
    items := SegmentFirst("]", 'T', Segment("", 'm', Segment("", 'n', "")), items, msg, strftime);
  }

  lemma LineBehindFile(msg: Logmsg, strftime: (string, int) -> string) returns (items: seq<Item>)
    ensures var p := Segment(":", 'l', Segment("][", 'p', BehindLevel())); Parsed(p, "") == Some(items) && p[0] != '{'
    ensures LineOf(items, msg, strftime)
         == ":" + (Decimal(msg.line) + ("][" + (msg.level + ("]" + ("\t" + (msg.payload + ("\n" + "")))))))
  {
    DirectiveTable("", msg, strftime);
    items := LineBehindLevel(msg, strftime);
    items := SegmentFirst("][", 'p', BehindLevel(), items, msg, strftime);
    items := SegmentFirst(":", 'l', Segment("][", 'p', BehindLevel()), items, msg, strftime);
  }

  lemma LineBehindTime(msg: Logmsg, strftime: (string, int) -> string) returns (items: seq<Item>, line: string)
    ensures Parsed(BehindTime(), "") == Some(items) && LineOf(items, msg, strftime) == line
    ensures line == "][" + (msg.tid + ("][" + (msg.logger + ("][" + (msg.file + (":" + (Decimal(msg.line)
      + ("][" + (msg.level + ("]" + ("\t" + (msg.payload + ("\n" + "")))))))))))))
  {
    var p := Segment(":", 'l', Segment("][", 'p', BehindLevel()));
    DirectiveTable("", msg, strftime);
    items := LineBehindFile(msg, strftime);
    items := SegmentFirst("][", 'f', p, items, msg, strftime);
    items := SegmentFirst("][", 'c', Segment("][", 'f', p), items, msg, strftime);
    items := SegmentFirst("][", 't', Segment("][", 'c', Segment("][", 'f', p)), items, msg, strftime);
    line := LineOf(items, msg, strftime);
  }

  /** The line that a default Formatter writes. */
  lemma DefaultLine(msg: Logmsg, strftime: (string, int) -> string)
    ensures Parsed(DefaultPattern(), "").Some?
    ensures RenderedAll(CreateAll(Parsed(DefaultPattern(), "").value), msg, strftime)
         == "[" + (strftime("%H:%M:%S", msg.time) + ("][" + (msg.tid + ("][" + (msg.logger + ("][" + (msg.file
            + (":" + (Decimal(msg.line) + ("][" + (msg.level + ("]" + ("\t" + (msg.payload + ("\n" + "")))))))))))))))
  {
    var items, line := LineBehindTime(msg, strftime);
    BracedDirectiveIsRead('d', "%H:%M:%S", BehindTime(), "[", items);
    PlainThenRest("[", "%" + ['d'] + "{" + "%H:%M:%S" + "}" + BehindTime(), "");
    assert "" + "[" == "[";
    var all := Before("[") + [Directive('d', "%H:%M:%S")] + items;
    LineOfTwo("[", Directive('d', "%H:%M:%S"), items, msg, strftime);
    DirectiveTable("%H:%M:%S", msg, strftime);
    LineOfAll(all, msg, strftime);
  }

  /** Whatever the parser returns is canonical. */
  lemma {:induction false} ParsedIsCanonical(p: string, text: string)
    ensures Parsed(p, text).Some? ==> Canonical(Parsed(p, text).value)
    decreases |p|
  {
    if p == "" {
    } else if p[0] != '%' {
      ParsedIsCanonical(p[1..], text + [p[0]]);
    } else if |p| > 1 && p[1] == '%' {
      ParsedIsCanonical(p[2..], text + "%");
    } else {
      var d := ReadDirective(p);
      if d.Some? {
        ParsedIsCanonical(p[d.value.1..], "");
        var rest := Parsed(p[d.value.1..], "");
        if rest.Some? {
          var tail := [d.value.0] + rest.value;
          assert tail[1..] == rest.value;
          assert Canonical(tail);
          assert Before(text) + [d.value.0] + rest.value == Before(text) + tail;
          if text == "" {
            assert Before(text) + tail == tail;
          } else {
            assert (Before(text) + tail)[1..] == tail;
          }
        }
      }
    }
  }

  /** The parser inverts the printer on exactly the canonical lists, and so every pattern that is
      accepted has a printed form with the same meaning. */
  lemma PatternRoundTrip(items: seq<Item>)
    ensures Parsed(Print(items), "") == Some(items) <==> Canonical(items)
  {
    if Canonical(items) {
      PrintedIsRead(items, "");
      assert Before("") + items == items;
    } else {
      ParsedIsCanonical(Print(items), "");
    }
  }

  /** Text behind the last directive is lost: a pattern that is accepted means the same with any
      plain text added to it, unless that text opens the argument of the last directive. */
  lemma {:induction false} TrailingTextIsDropped(p: string, text: string, trailer: string)
    requires Parsed(p, text).Some?
    requires '%' !in trailer && (trailer != "" ==> trailer[0] != '{')
    ensures Parsed(p + trailer, text) == Parsed(p, text)
    decreases |p|
  {
    var q := p + trailer;
    if p == "" {
      assert q == trailer;
      PlainTextIsNothing(trailer, text);
    } else if p[0] != '%' {
      assert q[1..] == p[1..] + trailer;
      TrailingTextIsDropped(p[1..], text + [p[0]], trailer);
    } else if |p| > 1 && p[1] == '%' {
      assert q[2..] == p[2..] + trailer;
      TrailingTextIsDropped(p[2..], text + "%", trailer);
    } else {
      var n := ReadDirective(p).value.1;
      DirectiveWithTrailer(p, trailer);
      assert q[n..] == p[n..] + trailer;
      TrailingTextIsDropped(p[n..], "", trailer);
    }
  }

  lemma {:induction false} PlainTextIsNothing(trailer: string, text: string)
    requires '%' !in trailer
    ensures Parsed(trailer, text) == Some([])
    decreases |trailer|
  {
    if trailer != "" {
      assert trailer[0] in trailer;
      PlainTextIsNothing(trailer[1..], text + [trailer[0]]);
    }
  }

  lemma DirectiveWithTrailer(p: string, trailer: string)
    requires p != "" && ReadDirective(p).Some? && (trailer != "" ==> trailer[0] != '{')
    ensures ReadDirective(p + trailer) == ReadDirective(p)
  {
    var q := p + trailer;
    if |p| > 2 && p[2] == '{' {
      var j := CloseOf(p, 3);
      assert q[3..j] == p[3..j];
      CloseFound(q, 3, j);
    }
  }
}
