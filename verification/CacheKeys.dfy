/** The text of every cache key, and why no two keys can meet. */
module CacheKeys {
  import opened Prelude
  import opened Text
  import opened Tasks
  import opened Redis

  const TASK_PREFIX := "task:"
  const LIST_PREFIX := "tasks:list:"
  const LIST_GENERATION := "tasks:list:gen"
  const COUNT := "tasks:count"
  const COUNT_LOCK := "tasks:count:lock"

  // ----- query escaping -----

  predicate Unreserved(c: char) {
    'a' <= c <= 'z' || 'A' <= c <= 'Z' || '0' <= c <= '9' || c == '-' || c == '_' || c == '.' || c == '~'
  }

  function EscapeByte(c: char): (s: string)
    requires c as int < 0x100
    ensures s != "" && ':' !in s
  {
    if Unreserved(c) then [c]
    else if c == ' ' then "+"
    else ['%', DigitChar(c as int / 16), DigitChar(c as int % 16)]
  }

  function QueryEscape(s: string): (e: string)
    requires IsBytes(s)
    ensures ':' !in e
  {
    if s == "" then "" else EscapeByte(s[0]) + QueryEscape(s[1..])
  }

  function QueryUnescape(e: string): string {
    if e == "" then ""
    else if e[0] == '+' then " " + QueryUnescape(e[1..])
    else if e[0] == '%' && |e| >= 3 then
      [(16 * DigitValue(e[1]) + DigitValue(e[2])) as char] + QueryUnescape(e[3..])
    else [e[0]] + QueryUnescape(e[1..])
  }

  lemma DigitRoundTrip(d: int)
    requires 0 <= d < 16
    ensures DigitValue(DigitChar(d)) == d
  {
  }

  lemma UnescapeByte(c: char, rest: string)
    requires c as int < 0x100
    ensures QueryUnescape(EscapeByte(c) + rest) == [c] + QueryUnescape(rest)
  {
    var e := EscapeByte(c) + rest;
    if Unreserved(c) || c == ' ' {
      assert e[1..] == rest;
    } else {
      var high, low := c as int / 16, c as int % 16;
      DigitRoundTrip(high);
      DigitRoundTrip(low);
      assert e[0] == '%' && e[1] == DigitChar(high) && e[2] == DigitChar(low) && e[3..] == rest;
    }
  }

  lemma {:induction false} QueryEscapeRoundTrip(s: string)
    requires IsBytes(s)
    ensures QueryUnescape(QueryEscape(s)) == s
  {
    if s != "" {
      QueryEscapeRoundTrip(s[1..]);
      UnescapeByte(s[0], QueryEscape(s[1..]));
    }
  }

  // ----- fields between colons -----

  /** The index of the first colon, or the length. */
  function FirstColon(s: string): (i: nat)
    ensures i <= |s|
  {
    if s == "" || s[0] == ':' then 0 else 1 + FirstColon(s[1..])
  }

  /** The index of the last colon, or zero. */
  function LastColon(s: string): (i: nat)
    ensures i <= |s| && (i == |s| ==> s == "")
  {
    if s == "" || s[|s| - 1] == ':' then Max(|s| - 1, 0) else LastColon(s[..|s| - 1])
  }

  function Tail(s: string, i: int): string {
    if 0 <= i < |s| then s[i + 1..] else ""
  }

  lemma {:induction false} FirstFieldEnds(field: string, rest: string)
    requires ':' !in field
    ensures FirstColon(field + (":" + rest)) == |field|
  {
    var s := field + (":" + rest);
    if field != "" {
      assert s[0] == field[0] && s[0] in field && s[1..] == field[1..] + (":" + rest);
      FirstFieldEnds(field[1..], rest);
    }
  }

  lemma {:induction false} LastFieldStarts(rest: string, field: string)
    requires ':' !in field
    ensures LastColon(rest + ":" + field) == |rest|
  {
    var s := rest + ":" + field;
    if field == "" {
      assert s[|s| - 1] == ':';
    } else {
      assert s[|s| - 1] == field[|field| - 1] && s[|s| - 1] in field;
      assert s[..|s| - 1] == rest + ":" + field[..|field| - 1];
      LastFieldStarts(rest, field[..|field| - 1]);
    }
  }

  // ----- keys -----

  /** The base32 alphabet of section 6 of RFC 4648, which random tokens are written in. */
  predicate IsToken(t: string) {
    forall c :: c in t ==> 'A' <= c <= 'Z' || '2' <= c <= '7'
  }

  predicate Renderable(k: Key) {
    k.PageKey? ==> IsToken(k.generation) && IsBytes(k.req.assignee)
  }

  /** The part of a page key after the generation. */
  function PageFields(req: ListTasksRequest): string
    requires IsBytes(req.assignee)
  {
    req.status + ":" + QueryEscape(req.assignee) + ":" + Decimal(req.cursor) + ":" + Decimal(req.limit)
  }

  function Render(k: Key): string
    requires Renderable(k)
  {
    match k
    case TaskKey(id) => TASK_PREFIX + Decimal(id)
    case GenerationKey => LIST_GENERATION
    case PageKey(generation, req) => LIST_PREFIX + (generation + (":" + PageFields(req)))
    case CountKey => COUNT
    case CountLockKey => COUNT_LOCK
  }

  /** What comes before and after the last colon. */
  function SplitLast(s: string): (string, string) {
    (s[..LastColon(s)], Tail(s, LastColon(s)))
  }

  function ParseFields(s: string): ListTasksRequest {
    var (s1, limit) := SplitLast(s);
    var (s2, cursor) := SplitLast(s1);
    var (status, assignee) := SplitLast(s2);
    ListTasksRequest(status, QueryUnescape(assignee), DecimalValue(cursor), DecimalValue(limit))
  }

  function ParseKey(text: string): Option<Key> {
    if text == LIST_GENERATION then Some(GenerationKey)
    else if text == COUNT then Some(CountKey)
    else if text == COUNT_LOCK then Some(CountLockKey)
    else if TASK_PREFIX <= text then Some(TaskKey(DecimalValue(text[|TASK_PREFIX|..])))
    else if LIST_PREFIX <= text then
      var body := text[|LIST_PREFIX|..];
      Some(PageKey(body[..FirstColon(body)], ParseFields(Tail(body, FirstColon(body)))))
    else None
  }

  /** Splitting at the last colon takes a colon-free last field off. */
  lemma LastFieldSplits(rest: string, field: string)
    requires ':' !in field
    ensures SplitLast(rest + ":" + field) == (rest, field)
  {
    var s := rest + ":" + field;
    LastFieldStarts(rest, field);
    assert s[..|rest|] == rest && Tail(s, |rest|) == field;
  }

  lemma FieldsRoundTrip(req: ListTasksRequest)
    requires IsBytes(req.assignee)
    ensures ParseFields(PageFields(req)) == req
  {
    var assignee, cursor, limit := QueryEscape(req.assignee), Decimal(req.cursor), Decimal(req.limit);
    DecimalRoundTrip(req.cursor);
    DecimalRoundTrip(req.limit);
    QueryEscapeRoundTrip(req.assignee);
    var s2 := req.status + ":" + assignee;
    var s1 := s2 + ":" + cursor;
    LastFieldSplits(s1, limit);
    LastFieldSplits(s2, cursor);
    LastFieldSplits(req.status, assignee);
    assert PageFields(req) == s1 + ":" + limit;
    assert SplitLast(PageFields(req)) == (s1, limit) && SplitLast(s1) == (s2, cursor);
  }

  lemma TaskKeyRoundTrip(id: int)
    ensures ParseKey(Render(TaskKey(id))) == Some(TaskKey(id))
  {
    var text := Render(TaskKey(id));
    DecimalRoundTrip(id);
    assert text[4] == ':' && text[|TASK_PREFIX|..] == Decimal(id);
    assert LIST_GENERATION[4] == 's' && COUNT[4] == 's' && COUNT_LOCK[4] == 's';
  }

  /** Splitting at the first colon takes a colon-free first field off. */
  lemma FirstFieldSplits(field: string, rest: string)
    requires ':' !in field
    ensures var s := field + (":" + rest);
            var i := FirstColon(s);
            i < |s| && s[i] == ':' && s[..i] == field && Tail(s, i) == rest
  {
    FirstFieldEnds(field, rest);
  }

  lemma PageBodyRoundTrip(generation: string, req: ListTasksRequest)
    requires IsToken(generation) && IsBytes(req.assignee)
    ensures var body := generation + (":" + PageFields(req));
            var i := FirstColon(body);
            && i < |body| && body[i] == ':' && body[..i] == generation && ParseFields(Tail(body, i)) == req
  {
    FirstFieldSplits(generation, PageFields(req));
    FieldsRoundTrip(req);
  }

  /** A page key is none of the fixed keys and no task key. */
  lemma PageKeyIsNoOther(body: string, colon: nat)
    requires colon < |body| && body[colon] == ':'
    ensures LIST_PREFIX + body !in {LIST_GENERATION, COUNT, COUNT_LOCK} && !(TASK_PREFIX <= LIST_PREFIX + body)
  {
    var text := LIST_PREFIX + body;
    assert text[4] == 's' && text[6] == 'l' && text[|LIST_PREFIX| + colon] == ':';
    assert TASK_PREFIX[4] == ':' && COUNT[6] == 'c' && COUNT_LOCK[6] == 'c';
    assert forall j :: |LIST_PREFIX| <= j < |LIST_GENERATION| ==> LIST_GENERATION[j] != ':';
  }

  lemma PageKeyRoundTrip(generation: string, req: ListTasksRequest)
    requires IsToken(generation) && IsBytes(req.assignee)
    ensures ParseKey(Render(PageKey(generation, req))) == Some(PageKey(generation, req))
  {
    var body := generation + (":" + PageFields(req));
    PageBodyRoundTrip(generation, req);
    PageKeyIsNoOther(body, FirstColon(body));
    assert (LIST_PREFIX + body)[|LIST_PREFIX|..] == body;
  }

  /** Every key parses back, whatever the status and the assignee hold: so distinct keys of any kinds never share a
      text. */
  lemma KeyRoundTrip(k: Key)
    requires Renderable(k)
    ensures ParseKey(Render(k)) == Some(k)
  {
    match k
    case TaskKey(id) => TaskKeyRoundTrip(id);
    case PageKey(generation, req) => PageKeyRoundTrip(generation, req);
    case _ =>
  }

  lemma KeysDistinct(j: Key, k: Key)
    requires Renderable(j) && Renderable(k) && Render(j) == Render(k)
    ensures j == k
  {
    KeyRoundTrip(j);
    KeyRoundTrip(k);
  }

  /** The texts Redis sees, character by character. */
  lemma KeyTexts(id: int, generation: string, req: ListTasksRequest)
    requires Renderable(PageKey(generation, req))
    ensures Render(TaskKey(id)) == "task:" + Decimal(id)
    ensures Render(GenerationKey) == "tasks:list:gen" && Render(CountKey) == "tasks:count"
    ensures Render(CountLockKey) == "tasks:count:lock"
    ensures Render(PageKey(generation, req)) ==
            "tasks:list:" + generation + ":" + req.status + ":" + QueryEscape(req.assignee) + ":" + Decimal(req.cursor)
            + ":" + Decimal(req.limit)
  {
    hide Decimal, QueryEscape;
    var fields := req.status + ":" + QueryEscape(req.assignee) + ":" + Decimal(req.cursor) + ":" + Decimal(req.limit);
    assert PageFields(req) == fields;
    assert "tasks:list:" + (generation + (":" + fields)) ==
           "tasks:list:" + generation + ":" + req.status + ":" + QueryEscape(req.assignee) + ":" + Decimal(req.cursor)
           + ":" + Decimal(req.limit);
  }

  /** Percent-encoding: letters, digits and four marks stand for themselves, a blank is a plus, and any other byte is
      written with two hexadecimal digits. */
  lemma EscapedByte(c: char)
    requires c as int < 0x100
    ensures ('a' <= c <= 'z' || 'A' <= c <= 'Z' || '0' <= c <= '9' || c in "-_.~") ==> EscapeByte(c) == [c]
    ensures c == ' ' ==> EscapeByte(c) == "+"
    ensures !('a' <= c <= 'z' || 'A' <= c <= 'Z' || '0' <= c <= '9' || c in "-_.~ ") ==>
              && |EscapeByte(c)| == 3 && EscapeByte(c)[0] == '%'
              && (forall i :: 1 <= i < 3 ==> EscapeByte(c)[i] in "0123456789ABCDEF")
              && DigitValue(EscapeByte(c)[1]) * 16 + DigitValue(EscapeByte(c)[2]) == c as int
  {
    DigitRoundTrip(c as int / 16);
    DigitRoundTrip(c as int % 16);
  }
}
