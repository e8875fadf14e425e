/** Reading list literals (parse_list in core/stored_proc.c) over the tokens that the
    SQL tokenizer yields. */
module ListLiterals {
  import opened Common

  /** A blank is one white-space character. The word NULL is a keyword of the
      tokenizer; other words, TRUE and FALSE among them, are names. */
  datatype Token =
    | Blank | Open | Close | OpenParen | CloseParen | Comma | Minus
    | Number(n: nat) | Quoted(s: string) | Variable(name: string) | NullWord | Name(s: string) | Other

  /** A value of the parsed list; a variable is kept by name. */
  datatype Literal = Null | Int(i: int) | Text(s: string) | Var(name: string) | List(items: seq<Literal>)

  /** The variables that must exist, when a procedure is parsed. */
  type Scope = Option<set<string>>

  datatype Parsed = Ok(items: seq<Literal>, rest: seq<Token>) | Invalid

  datatype Read = Read(value: Literal, rest: seq<Token>) | NoValue

  const MAX_INT := 0x7fff_ffff_ffff_ffff

  /** sqlite3Atoi64 keeps the nearest 64-bit integer. */
  function Clamp(i: int): int {
    if i > MAX_INT then MAX_INT else if i < -MAX_INT - 1 then -MAX_INT - 1 else i
  }

  function Negated(n: int): int { -n }

  function OpenOf(isFunction: bool): Token { if isFunction then OpenParen else Open }

  function CloseOf(isFunction: bool): Token { if isFunction then CloseParen else Close }

  function SkipBlanks(ts: seq<Token>): (r: seq<Token>)
    ensures |r| <= |ts|
  {
    if ts != [] && ts[0] == Blank then SkipBlanks(ts[1..]) else ts
  }

  /** sqlite3ValueFromToken for integers, strings and words. */
  function ReadValue(ts: seq<Token>): (r: Read)
    requires ts != []
    ensures r.Read? ==> |r.rest| < |ts|
  {
    match ts[0]
    case Minus => if |ts| > 1 && ts[1].Number? then Read(Int(Clamp(Negated(ts[1].n))), ts[2..]) else NoValue
    case Number(n) => Read(Int(Clamp(n)), ts[1..])
    case Quoted(s) => Read(Text(s), ts[1..])
    case Name(s) =>
      if s == "true" then Read(Int(1), ts[1..])
      else if s == "false" then Read(Int(0), ts[1..])
      else if s == "null" then Read(Null, ts[1..])
      else NoValue
    case _ => NoValue
  }

  /** One value of the list: a variable, a nested list, or a constant. */
  function ReadItem(scope: Scope, ts: seq<Token>): (r: Read)
    requires ts != []
    ensures r.Read? ==> |r.rest| < |ts|
    decreases |ts|, 1
  {
    if ts[0].Variable? then
      if scope.Some? && ts[0].name !in scope.value then NoValue else Read(Var(ts[0].name), ts[1..])
    else if ts[0] == Open then
      var p := ParseList(scope, ts, false);
      if p.Ok? then Read(List(p.items), p.rest) else NoValue
    else ReadValue(ts)
  }

  /** The loop of parse_list, with the values read so far. A closing bracket is
      accepted where a value could start, after a comma as well. */
  function ParseItems(scope: Scope, ts: seq<Token>, isFunction: bool, items: seq<Literal>): (p: Parsed)
    ensures p.Ok? ==> |p.rest| <= |ts|
    decreases |ts|, 2
  {
    if ts == [] then Invalid
    else if ts[0] == CloseOf(isFunction) then Ok(items, SkipBlanks(ts[1..]))
    else
      var r := ReadItem(scope, ts);
      if r.NoValue? then Invalid
      else
        var after := SkipBlanks(r.rest);
        if after == [] then Invalid
        else if after[0] == Comma then ParseItems(scope, SkipBlanks(after[1..]), isFunction, items + [r.value])
        else if after[0] == CloseOf(isFunction) then Ok(items + [r.value], SkipBlanks(after[1..]))
        else Invalid
  }

  function ParseList(scope: Scope, ts: seq<Token>, isFunction: bool): (p: Parsed)
    ensures p.Ok? ==> |p.rest| < |ts|
    decreases |ts|, 0
  {
    var s := SkipBlanks(ts);
    if s == [] || s[0] != OpenOf(isFunction) then Invalid
    else ParseItems(scope, SkipBlanks(s[1..]), isFunction, [])
  }

  // ---- written lists ----

  /** A written value with its layout: every run of blanks may have any length, and
      a comma may follow the last entry. */
  datatype Doc =
    | NullDoc | IntDoc(i: int) | BoolDoc(b: bool) | TextDoc(s: string) | VarDoc(name: string)
    | ListDoc(lead: nat, entries: Entries, comma: bool)

  /** `after` blanks follow the value, `gap` blanks the comma behind it. */
  datatype Entries = End | Entry(doc: Doc, after: nat, gap: nat, next: Entries)

  function Blanks(n: nat): (r: seq<Token>)
    ensures |r| == n
  {
    seq(n, _ => Blank)
  }

  function Tokens(d: Doc): seq<Token> {
    match d
    case NullDoc => [NullWord]
    case IntDoc(i) => if i < 0 then [Minus, Number(-i)] else [Number(i)]
    case BoolDoc(b) => [Name(if b then "true" else "false")]
    case TextDoc(s) => [Quoted(s)]
    case VarDoc(name) => [Variable(name)]
    case ListDoc(lead, entries, comma) => [Open] + Blanks(lead) + EntryTokens(entries, comma, Close)
  }

  function EntryTokens(es: Entries, comma: bool, close: Token): seq<Token> {
    match es
    case End => [close]
    case Entry(doc, after, gap, next) =>
      Tokens(doc) + Blanks(after) +
      if next.End? && !comma then [close] else [Comma] + Blanks(gap) + EntryTokens(next, comma, close)
  }

  /** What the writer means. There are no truth values: TRUE is 1 and FALSE is 0. */
  function Meaning(d: Doc): Literal {
    match d
    case NullDoc => Null
    case IntDoc(i) => Int(i)
    case BoolDoc(b) => Int(if b then 1 else 0)
    case TextDoc(s) => Text(s)
    case VarDoc(name) => Var(name)
    case ListDoc(_, entries, _) => List(Meanings(entries))
  }

  function Meanings(es: Entries): seq<Literal> {
    match es
    case End => []
    case Entry(doc, _, _, next) => [Meaning(doc)] + Meanings(next)
  }

  /** No integer beyond 64 bits. */
  predicate InRange(d: Doc) {
    match d
    case IntDoc(i) => -0x8000_0000_0000_0000 <= i <= 0x7fff_ffff_ffff_ffff
    case ListDoc(_, entries, _) => AllInRange(entries)
    case _ => true
  }

  predicate AllInRange(es: Entries) {
    es.Entry? ==> InRange(es.doc) && AllInRange(es.next)
  }

  /** What is read: the nearest 64-bit integer in place of every integer. */
  function Kept(d: Doc): Literal {
    match d
    case IntDoc(i) =>
      Int(if i > 0x7fff_ffff_ffff_ffff then 0x7fff_ffff_ffff_ffff
          else if i < -0x8000_0000_0000_0000 then -0x8000_0000_0000_0000 else i)
    case ListDoc(_, entries, _) => List(AllKept(entries))
    case _ => Meaning(d)
  }

  function AllKept(es: Entries): seq<Literal> {
    match es
    case End => []
    case Entry(doc, _, _, next) => [Kept(doc)] + AllKept(next)
  }

  lemma {:induction false} KeptIff(d: Doc)
    ensures Kept(d) == Meaning(d) <==> InRange(d)
    decreases d
  {
    if d.ListDoc? {
      AllKeptIff(d.entries);
    }
  }

  lemma {:induction false} AllKeptIff(es: Entries)
    ensures |AllKept(es)| == |Meanings(es)|
    ensures AllKept(es) == Meanings(es) <==> AllInRange(es)
    decreases es
  {
    if es.Entry? {
      KeptIff(es.doc);
      AllKeptIff(es.next);
      var kept, meant := AllKept(es), Meanings(es);
      assert kept[0] == Kept(es.doc) && kept[1..] == AllKept(es.next);
      assert meant[0] == Meaning(es.doc) && meant[1..] == Meanings(es.next);
    }
  }

  /** No NULL anywhere, and only variables that exist. */
  predicate Readable(scope: Scope, d: Doc)
    decreases d
  {
    match d
    case NullDoc => false
    case VarDoc(name) => scope.Some? ==> name in scope.value
    case ListDoc(_, entries, _) => AllReadable(scope, entries)
    case _ => true
  }

  predicate AllReadable(scope: Scope, es: Entries)
    decreases es
  {
    es.Entry? ==> Readable(scope, es.doc) && AllReadable(scope, es.next)
  }

  // ---- the round trip ----

  predicate Solid(ts: seq<Token>) {
    ts == [] || ts[0] != Blank
  }

  lemma {:induction false} BlanksAreSkipped(n: nat, ts: seq<Token>)
    ensures SkipBlanks(Blanks(n) + ts) == SkipBlanks(ts)
    decreases n
  {
    if n == 0 {
      assert Blanks(0) + ts == ts;
    } else {
      assert (Blanks(n) + ts)[1..] == Blanks(n - 1) + ts;
      BlanksAreSkipped(n - 1, ts);
    }
  }

  /** A written value is read back, whatever follows it. */
  lemma {:induction false} DocRead(scope: Scope, d: Doc, tail: seq<Token>)
    ensures Tokens(d) != [] && Tokens(d)[0] !in {Blank, Comma, Close, CloseParen}
    ensures var r := ReadItem(scope, Tokens(d) + tail);
            if Readable(scope, d)
            then r.Read? && r.value == Kept(d) && SkipBlanks(r.rest) == SkipBlanks(tail)
            else r.NoValue?
    decreases d, 1
  {
    var ts := Tokens(d) + tail;
    match d {
      case NullDoc =>
      case IntDoc(i) => {
        assert ts[|Tokens(d)|..] == tail;
      }
      case BoolDoc(b) => {
        assert ts[1..] == tail;
      }
      case TextDoc(s) => {
        assert ts[1..] == tail;
      }
      case VarDoc(name) => {
        assert ts[1..] == tail;
      }
      case ListDoc(lead, entries, comma) => {
        NestedRead(scope, lead, entries, comma, tail);
      }
    }
  }

  lemma NestedRead(scope: Scope, lead: nat, es: Entries, comma: bool, tail: seq<Token>)
    ensures var r := ReadItem(scope, Tokens(ListDoc(lead, es, comma)) + tail);
            if AllReadable(scope, es)
            then r == Read(List(AllKept(es)), SkipBlanks(tail)) && SkipBlanks(r.rest) == SkipBlanks(tail)
            else r.NoValue?
    decreases es, 2
  {
    var ts := Tokens(ListDoc(lead, es, comma)) + tail;
    var inner := [Open] + (Blanks(lead) + (EntryTokens(es, comma, Close) + tail));
    assert ts == inner;
    OpenedList(scope, es, comma, false, lead, tail);
    SkipTwice(tail);
  }

  lemma SkipTwice(ts: seq<Token>)
    ensures SkipBlanks(SkipBlanks(ts)) == SkipBlanks(ts)
  {
  }

  lemma {:induction false} SkipStops(ts: seq<Token>)
    ensures Solid(SkipBlanks(ts))
    decreases |ts|
  {
    if ts != [] && ts[0] == Blank {
      SkipStops(ts[1..]);
    }
  }

  /** What one value and the token behind it do to the reading of a list. */
  lemma AfterItem(scope: Scope, ts: seq<Token>, isFunction: bool, items: seq<Literal>, value: Literal, next: seq<Token>)
    requires ts != [] && ts[0] != CloseOf(isFunction)
    requires var r := ReadItem(scope, ts); r.Read? && r.value == value && SkipBlanks(r.rest) == next
    ensures ParseItems(scope, ts, isFunction, items) ==
            if next == [] then Invalid
            else if next[0] == Comma then ParseItems(scope, SkipBlanks(next[1..]), isFunction, items + [value])
            else if next[0] == CloseOf(isFunction) then Ok(items + [value], SkipBlanks(next[1..]))
            else Invalid
  {
  }

  lemma EntryRead(scope: Scope, doc: Doc, after: nat, next: seq<Token>, isFunction: bool, items: seq<Literal>)
    requires Solid(next) && next != [] && next[0] in {Comma, CloseOf(isFunction)}
    ensures var ts := Tokens(doc) + (Blanks(after) + next);
            Solid(ts) && ParseItems(scope, ts, isFunction, items) ==
            if !Readable(scope, doc) then Invalid
            else if next[0] == Comma then ParseItems(scope, SkipBlanks(next[1..]), isFunction, items + [Kept(doc)])
            else Ok(items + [Kept(doc)], SkipBlanks(next[1..]))
    decreases doc, 2
  {
    var behind := Blanks(after) + next;
    var ts := Tokens(doc) + behind;
    DocRead(scope, doc, behind);
    assert ts[0] == Tokens(doc)[0];
    BlanksAreSkipped(after, next);
    assert SkipBlanks(next) == next;
    if Readable(scope, doc) {
      AfterItem(scope, ts, isFunction, items, Kept(doc), next);
    }
  }

  /** An entry that is followed by another one. */
  lemma NextEntryRead(scope: Scope, doc: Doc, after: nat, gap: nat, more: seq<Token>, isFunction: bool,
                      items: seq<Literal>)
    requires Solid(more)
    ensures var ts := Tokens(doc) + (Blanks(after) + ([Comma] + (Blanks(gap) + more)));
            Solid(ts) && ParseItems(scope, ts, isFunction, items)
            == if Readable(scope, doc) then ParseItems(scope, more, isFunction, items + [Kept(doc)]) else Invalid
    decreases doc, 3
  {
    var next := [Comma] + (Blanks(gap) + more);
    EntryRead(scope, doc, after, next, isFunction, items);
    assert next[1..] == Blanks(gap) + more;
    BlanksAreSkipped(gap, more);
    assert SkipBlanks(more) == more;
  }

  lemma LastRead(scope: Scope, doc: Doc, after: nat, gap: nat, isFunction: bool, items: seq<Literal>, tail: seq<Token>)
    ensures var es := Entry(doc, after, gap, End);
            var ts := EntryTokens(es, false, CloseOf(isFunction)) + tail;
            Solid(ts) && ParseItems(scope, ts, isFunction, items)
            == if Readable(scope, doc) then Ok(items + AllKept(es), SkipBlanks(tail)) else Invalid
    decreases doc, 3
  {
    var next := [CloseOf(isFunction)] + tail;
    assert EntryTokens(Entry(doc, after, gap, End), false, CloseOf(isFunction)) + tail
        == Tokens(doc) + (Blanks(after) + next);
    EntryRead(scope, doc, after, next, isFunction, items);
    assert next[1..] == tail && AllKept(Entry(doc, after, gap, End)) == [Kept(doc)];
  }

  lemma {:induction false} EntriesRead(scope: Scope, es: Entries, comma: bool, isFunction: bool,
                                       items: seq<Literal>, tail: seq<Token>)
    ensures Solid(EntryTokens(es, comma, CloseOf(isFunction)) + tail)
    ensures ParseItems(scope, EntryTokens(es, comma, CloseOf(isFunction)) + tail, isFunction, items)
         == if AllReadable(scope, es) then Ok(items + AllKept(es), SkipBlanks(tail)) else Invalid
    decreases es, 0
  {
    var close := CloseOf(isFunction);
    var ts := EntryTokens(es, comma, close) + tail;
    match es {
      case End => {
        assert ts[1..] == tail;
        assert items + [] == items;
      }
      case Entry(doc, after, gap, rest) => {
        if rest.End? && !comma {
          LastRead(scope, doc, after, gap, isFunction, items, tail);
        } else {
          var more := EntryTokens(rest, comma, close) + tail;
          assert ts == Tokens(doc) + (Blanks(after) + ([Comma] + (Blanks(gap) + more)));
          EntriesRead(scope, rest, comma, isFunction, items + [Kept(doc)], tail);
          NextEntryRead(scope, doc, after, gap, more, isFunction, items);
          assert items + [Kept(doc)] + AllKept(rest) == items + AllKept(es);
        }
      }
    }
  }

  lemma ListRead(scope: Scope, es: Entries, comma: bool, isFunction: bool,
                 before: nat, lead: nat, behind: nat, rest: seq<Token>)
    requires Solid(rest)
    ensures var text := [OpenOf(isFunction)] + Blanks(lead) + EntryTokens(es, comma, CloseOf(isFunction));
            ParseList(scope, Blanks(before) + text + Blanks(behind) + rest, isFunction)
            == if AllReadable(scope, es) then Ok(AllKept(es), rest) else Invalid
  {
    var entries := EntryTokens(es, comma, CloseOf(isFunction));
    var tail := Blanks(behind) + rest;
    var inner := [OpenOf(isFunction)] + (Blanks(lead) + (entries + tail));
    var text := [OpenOf(isFunction)] + Blanks(lead) + entries;
    assert Blanks(before) + text + Blanks(behind) + rest == Blanks(before) + inner;
    BlanksAreSkipped(before, inner);
    BlanksAreSkipped(behind, rest);
    OpenedList(scope, es, comma, isFunction, lead, tail);
    assert SkipBlanks(rest) == rest;
  }

  /** A written list is accepted, and its text and the blanks behind it are consumed, if
      and only if it holds no NULL and no unknown variable. What is read is what was meant
      if and only if no integer is beyond 64 bits; else each is the nearest one. */
  lemma ListReadIff(scope: Scope, es: Entries, comma: bool, isFunction: bool,
                    before: nat, lead: nat, behind: nat, rest: seq<Token>)
    requires Solid(rest)
    ensures var text := [OpenOf(isFunction)] + Blanks(lead) + EntryTokens(es, comma, CloseOf(isFunction));
            var p := ParseList(scope, Blanks(before) + text + Blanks(behind) + rest, isFunction);
            (AllReadable(scope, es) <==> p.Ok?)
            && (p.Ok? ==> p.rest == rest && p.items == AllKept(es) && (p.items == Meanings(es) <==> AllInRange(es)))
  {
    ListRead(scope, es, comma, isFunction, before, lead, behind, rest);
    AllKeptIff(es);
  }

  /** The reading of a list from its opening bracket on. */
  lemma OpenedList(scope: Scope, es: Entries, comma: bool, isFunction: bool, lead: nat, tail: seq<Token>)
    ensures var body := EntryTokens(es, comma, CloseOf(isFunction)) + tail;
            var inner := [OpenOf(isFunction)] + (Blanks(lead) + body);
            SkipBlanks(inner) == inner
            && ParseItems(scope, SkipBlanks(inner[1..]), isFunction, [])
               == if AllReadable(scope, es) then Ok(AllKept(es), SkipBlanks(tail)) else Invalid
    decreases es, 1
  {
    var body := EntryTokens(es, comma, CloseOf(isFunction)) + tail;
    var inner := [OpenOf(isFunction)] + (Blanks(lead) + body);
    assert inner[1..] == Blanks(lead) + body;
    BlanksAreSkipped(lead, body);
    EntriesRead(scope, es, comma, isFunction, [], tail);
    assert SkipBlanks(body) == body && [] + AllKept(es) == AllKept(es);
  }

  /** A NULL anywhere in a value, however deeply nested. */
  predicate HasNull(d: Doc) {
    match d
    case NullDoc => true
    case ListDoc(_, entries, _) => AnyNull(entries)
    case _ => false
  }

  predicate AnyNull(es: Entries) {
    es.Entry? && (HasNull(es.doc) || AnyNull(es.next))
  }

  lemma {:induction false} NullIsUnreadable(d: Doc)
    ensures Readable(None, d) <==> !HasNull(d)
    decreases d
  {
    if d.ListDoc? {
      NullsAreUnreadable(d.entries);
    }
  }

  lemma {:induction false} NullsAreUnreadable(es: Entries)
    ensures AllReadable(None, es) <==> !AnyNull(es)
    decreases es
  {
    if es.Entry? {
      NullIsUnreadable(es.doc);
      NullsAreUnreadable(es.next);
    }
  }

  /** The NULL that the comment of sqlite3ValueFromToken promises is never read in a list:
      outside a procedure, where every variable name passes, a written list is rejected
      if and only if it holds a NULL, at any depth. A comma before the closing bracket,
      `comma`, never matters. */
  lemma NullIsRejected(es: Entries, comma: bool, isFunction: bool, before: nat, lead: nat, behind: nat,
                       rest: seq<Token>)
    requires Solid(rest)
    ensures var text := [OpenOf(isFunction)] + Blanks(lead) + EntryTokens(es, comma, CloseOf(isFunction));
            !ParseList(None, Blanks(before) + text + Blanks(behind) + rest, isFunction).Ok? <==> AnyNull(es)
  {
    NullsAreUnreadable(es);
    ListReadIff(None, es, comma, isFunction, before, lead, behind, rest);
  }

  // ---- the code ----

  method SkipSpaces(sql: seq<Token>, pos: nat) returns (next: nat)
    requires pos <= |sql|
    ensures pos <= next <= |sql| && sql[next..] == SkipBlanks(sql[pos..])
  {
    next := pos;
    while next < |sql| && sql[next] == Blank
      invariant pos <= next <= |sql| && SkipBlanks(sql[next..]) == SkipBlanks(sql[pos..])
    {
      assert sql[next..][1..] == sql[next + 1..];
      next := next + 1;
    }
  }

  /** sqlite3ValueFromToken. */
  method ValueFromToken(sql: seq<Token>, pos: nat) returns (r: Option<Literal>, next: nat)
    requires pos < |sql|
    ensures pos <= next <= |sql|
    ensures var s := ReadValue(sql[pos..]);
            if s.Read? then r == Some(s.value) && sql[next..] == s.rest && next > pos else r == None
  {
    var i := pos;
    if sql[i] == Minus {
      i := i + 1;
      if i == |sql| || !sql[i].Number? {
        return None, pos;
      }
      assert sql[pos..][2..] == sql[i + 1..];
      return Some(Int(Clamp(Negated(sql[i].n)))), i + 1;
    }
    assert sql[pos..][1..] == sql[pos + 1..];
    match sql[i] {
      case Number(n) => return Some(Int(Clamp(n))), i + 1;
      case Quoted(s) => return Some(Text(s)), i + 1;
      case Name(s) => {
        if s == "true" {
          return Some(Int(1)), i + 1;
        } else if s == "false" {
          return Some(Int(0)), i + 1;
        } else if s == "null" {
          return Some(Null), i + 1;
        }
        return None, pos;
      }
      case _ => return None, pos;
    }
  }

  method ReadOne(scope: Scope, sql: seq<Token>, pos: nat) returns (r: Option<Literal>, next: nat)
    requires pos < |sql|
    ensures pos <= next <= |sql|
    ensures var s := ReadItem(scope, sql[pos..]);
            if s.Read? then r == Some(s.value) && sql[next..] == s.rest && next > pos else r == None
    decreases |sql| - pos, 1
  {
    if sql[pos].Variable? {
      if scope.Some? && sql[pos].name !in scope.value {
        return None, pos;
      }
      assert sql[pos..][1..] == sql[pos + 1..];
      return Some(Var(sql[pos].name)), pos + 1;
    }
    if sql[pos] == Open {
      var ok, items, after := ParseListAt(scope, sql, pos, false);
      if !ok {
        return None, pos;
      }
      return Some(List(items)), after;
    }
    r, next := ValueFromToken(sql, pos);
  }

  datatype Round = More | Done | Bad

  /** The comma and the blanks behind it, or the closing bracket. */
  method Separator(sql: seq<Token>, pos: nat, isFunction: bool) returns (round: Round, next: nat)
    requires pos <= |sql|
    ensures pos <= next <= |sql|
    ensures var s := SkipBlanks(sql[pos..]);
            match round
            case More => s != [] && s[0] == Comma && sql[next..] == SkipBlanks(s[1..]) && next > pos
            case Done => s != [] && s[0] == CloseOf(isFunction) && sql[next..] == s[1..] && next > pos
            case Bad => s == [] || s[0] !in {Comma, CloseOf(isFunction)}
  {
    next := SkipSpaces(sql, pos);
    if next == |sql| {
      return Bad, next;
    }
    assert sql[next..][1..] == sql[next + 1..] && sql[next..][0] == sql[next];
    if sql[next] == Comma {
      next := SkipSpaces(sql, next + 1);
      return More, next;
    }
    if sql[next] == CloseOf(isFunction) {
      return Done, next + 1;
    }
    return Bad, next;
  }

  /** One round of the loop of parse_list: read a value and what separates it from
      the next, or the closing bracket. */
  method NextItem(scope: Scope, sql: seq<Token>, pos: nat, isFunction: bool, list: seq<Literal>)
    returns (round: Round, now: seq<Literal>, next: nat)
    requires pos <= |sql|
    ensures pos <= next <= |sql| && (round.More? || round.Done? ==> next > pos)
    ensures ParseItems(scope, sql[pos..], isFunction, list) ==
            match round
            case More => ParseItems(scope, sql[next..], isFunction, now)
            case Done => Ok(now, SkipBlanks(sql[next..]))
            case Bad => Invalid
    decreases |sql| - pos, 2
  {
    now, next := list, pos;
    if pos == |sql| {
      return Bad, list, pos;
    }
    assert sql[pos..][1..] == sql[pos + 1..];
    if sql[pos] == CloseOf(isFunction) {
      return Done, list, pos + 1;
    }
    var value;
    value, next := ReadOne(scope, sql, pos);
    if value.None? {
      return Bad, list, next;
    }
    AfterItem(scope, sql[pos..], isFunction, list, value.value, SkipBlanks(sql[next..]));
    now := list + [value.value];
    round, next := Separator(sql, next, isFunction);
  }

  /** parse_list: the list grows by one value a round; `next` is the new `*psql`. */
  method ParseListAt(scope: Scope, sql: seq<Token>, pos: nat, isFunction: bool)
    returns (ok: bool, list: seq<Literal>, next: nat)
    requires pos <= |sql|
    ensures pos <= next <= |sql|
    ensures var p := ParseList(scope, sql[pos..], isFunction);
            if p.Ok? then ok && list == p.items && sql[next..] == p.rest && next > pos else !ok
    decreases |sql| - pos, 0
  {
    list := [];
    ghost var goal := ParseList(scope, sql[pos..], isFunction);
    next := SkipSpaces(sql, pos);
    if next == |sql| || sql[next] != OpenOf(isFunction) {
      return false, [], next;
    }
    assert sql[next..][1..] == sql[next + 1..];
    next := SkipSpaces(sql, next + 1);
    var round := More;
    while round == More
      invariant pos < next <= |sql|
      invariant match round
                case More => ParseItems(scope, sql[next..], isFunction, list) == goal
                case Done => goal == Ok(list, SkipBlanks(sql[next..]))
                case Bad => goal == Invalid
      decreases round == More, |sql| - next
    {
      round, list, next := NextItem(scope, sql, next, isFunction, list);
    }
    ok := round == Done;
    if ok {
      next := SkipSpaces(sql, next);
    }
  }
}
