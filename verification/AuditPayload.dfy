/** The text that an audit row's hash is computed from, and the proof that it
    determines the row: the JSON parts may contain the separator, but each of
    them says itself where it ends. */
module AuditPayload {
  import opened Rows

  // ----- JSON values, as json.dumps writes them with default separators -----

  datatype Json =
    | JNull
    | JBool(b: bool)
    | JNumber(text: string)
    | JString(s: string)
    | JArray(items: Items)
    | JObject(members: Members)

  datatype Items = INil | ICons(head: Json, tail: Items)

  /** In the order sort_keys puts them. */
  datatype Members = MNil | MCons(key: string, value: Json, tail: Members)

  predicate NumberChar(c: char) {
    '0' <= c <= '9' || c == '-' || c == '+' || c == '.' || c == 'e' || c == 'E'
  }

  /** Number tokens are the only values whose text is given rather than derived. */
  predicate WellFormed(v: Json) {
    match v
    case JNumber(text) => |text| > 0 && forall i :: 0 <= i < |text| ==> NumberChar(text[i])
    case JArray(items) => ItemsWellFormed(items)
    case JObject(members) => MembersWellFormed(members)
    case _ => true
  }

  predicate ItemsWellFormed(items: Items) {
    items.INil? || (WellFormed(items.head) && ItemsWellFormed(items.tail))
  }

  predicate MembersWellFormed(members: Members) {
    members.MNil? || (WellFormed(members.value) && MembersWellFormed(members.tail))
  }

  function HexDigit(n: nat): char
    requires n < 16
  {
    if n < 10 then ('0' as int + n) as char else ('a' as int + n - 10) as char
  }

  /** A \uXXXX escape of a 16-bit unit, followed by k. */
  function UnitTo(u: nat, k: string): string
    requires u < 0x10000
  {
    ['\\', 'u', HexDigit(u / 16 / 16 / 16), HexDigit(u / 16 / 16 % 16), HexDigit(u / 16 % 16), HexDigit(u % 16)] + k
  }

  function ShortEscape(c: char): Option<char> {
    if c == '\"' then Some('\"')
    else if c == '\\' then Some('\\')
    else if c == '\n' then Some('n')
    else if c == '\r' then Some('r')
    else if c == '\t' then Some('t')
    else if c as int == 8 then Some('b')
    else if c as int == 12 then Some('f')
    else None
  }

  /** One character of a JSON string, ASCII only, followed by k. */
  function CharTo(c: char, k: string): string {
    if ShortEscape(c).Some? then ['\\', ShortEscape(c).value] + k
    else if ' ' <= c && c <= '~' then [c] + k
    else if c as int < 0x10000 then UnitTo(c as int, k)
    else
      var n := c as int - 0x10000;
      UnitTo(0xD800 + n / 1024, UnitTo(0xDC00 + n % 1024, k))
  }

  /** The rest of a string literal after its opening quote, followed by k. */
  function StringTo(s: string, k: string): string {
    if s == [] then ['\"'] + k else CharTo(s[0], StringTo(s[1..], k))
  }

  /** The text of v, followed by k. */
  function PrintTo(v: Json, k: string): string
    decreases v
  {
    match v
    case JNull => ['n', 'u', 'l', 'l'] + k
    case JBool(b) => if b then ['t', 'r', 'u', 'e'] + k else ['f', 'a', 'l', 's', 'e'] + k
    case JNumber(text) => text + k
    case JString(s) => ['\"'] + StringTo(s, k)
    case JArray(items) => ['['] + ItemsTo(items, true, k)
    case JObject(members) => ['{'] + MembersTo(members, true, k)
  }

  function ItemsTo(items: Items, first: bool, k: string): string
    decreases items
  {
    match items
    case INil => [']'] + k
    case ICons(head, tail) =>
      var rest := PrintTo(head, ItemsTo(tail, false, k));
      if first then rest else [',', ' '] + rest
  }

  function MembersTo(members: Members, first: bool, k: string): string
    decreases members
  {
    match members
    case MNil => ['}'] + k
    case MCons(key, value, tail) =>
      var rest := ['\"'] + StringTo(key, [':', ' '] + PrintTo(value, MembersTo(tail, false, k)));
      if first then rest else [',', ' '] + rest
  }

  /** The text of a value. */
  function Print(v: Json): string {
    PrintTo(v, [])
  }

  // ----- a text followed by more text -----

  lemma CharThen(c: char, k: string, l: string)
    ensures CharTo(c, k) + l == CharTo(c, k + l)
  {
  }

  lemma {:induction false} StringThen(s: string, k: string, l: string)
    ensures StringTo(s, k) + l == StringTo(s, k + l)
  {
    if s != [] {
      CharThen(s[0], StringTo(s[1..], k), l);
      StringThen(s[1..], k, l);
    }
  }

  lemma {:induction false} PrintThen(v: Json, k: string, l: string)
    ensures PrintTo(v, k) + l == PrintTo(v, k + l)
    decreases v
  {
    match v
    case JNumber(text) => assert text + k + l == text + (k + l);
    case JString(s) => StringThen(s, k, l);
    case JArray(items) => ItemsThen(items, true, k, l);
    case JObject(members) => MembersThen(members, true, k, l);
    case _ =>
  }

  lemma {:induction false} ItemsThen(items: Items, first: bool, k: string, l: string)
    ensures ItemsTo(items, first, k) + l == ItemsTo(items, first, k + l)
    decreases items
  {
    match items
    case INil =>
    case ICons(head, tail) =>
      PrintThen(head, ItemsTo(tail, false, k), l);
      ItemsThen(tail, false, k, l);
  }

  lemma {:induction false} MembersThen(members: Members, first: bool, k: string, l: string)
    ensures MembersTo(members, first, k) + l == MembersTo(members, first, k + l)
    decreases members
  {
    match members
    case MNil =>
    case MCons(key, value, tail) =>
      var inner := PrintTo(value, MembersTo(tail, false, k));
      PrintThen(value, MembersTo(tail, false, k), l);
      MembersThen(tail, false, k, l);
      assert [':', ' '] + inner + l == [':', ' '] + (inner + l);
      StringThen(key, [':', ' '] + inner, l);
  }

  // ----- reading a text back: only one value, and one rest, produce it -----

  lemma HexDigitInjective(m: nat, n: nat)
    requires m < 16 && n < 16 && HexDigit(m) == HexDigit(n)
    ensures m == n
  {
  }

  lemma UnitUnique(u: nat, v: nat, k: string, l: string)
    requires u < 0x10000 && v < 0x10000 && UnitTo(u, k) == UnitTo(v, l)
    ensures u == v && k == l
  {
    UnitChars(u, k);
    UnitChars(v, l);
    HexDigitInjective(u / 16 / 16 / 16, v / 16 / 16 / 16);
    HexDigitInjective(u / 16 / 16 % 16, v / 16 / 16 % 16);
    HexDigitInjective(u / 16 % 16, v / 16 % 16);
    HexDigitInjective(u % 16, v % 16);
  }

  lemma UnitChars(u: nat, k: string)
    requires u < 0x10000
    ensures var s := UnitTo(u, k);
      && |s| == 6 + |k|
      && s[2] == HexDigit(u / 16 / 16 / 16) && s[3] == HexDigit(u / 16 / 16 % 16)
      && s[4] == HexDigit(u / 16 % 16) && s[5] == HexDigit(u % 16) && s[6..] == k
  {
  }

  /** No character's text starts with the closing quote. */
  lemma CharHead(c: char, k: string)
    ensures CharTo(c, k) != [] && CharTo(c, k)[0] != '\"'
    ensures CharTo(c, k)[0] == '\\' <==> ShortEscape(c).Some? || c < ' ' || c > '~'
  {
  }

  /** The 16-bit unit a long escape starts with. */
  function FirstUnit(c: char): (u: nat)
    requires ShortEscape(c).None? && (c < ' ' || c > '~')
    ensures u < 0x10000
  {
    if c as int < 0x10000 then c as int else 0xD800 + (c as int - 0x10000) / 1024
  }

  /** What follows the first unit: the low half of a surrogate pair, or nothing. */
  function AfterFirst(c: char, k: string): string {
    if c as int < 0x10000 then k else UnitTo(0xDC00 + (c as int - 0x10000) % 1024, k)
  }

  lemma LongCharShape(c: char, k: string)
    requires ShortEscape(c).None? && (c < ' ' || c > '~')
    ensures CharTo(c, k) == UnitTo(FirstUnit(c), AfterFirst(c, k))
  {
  }

  lemma LongCharUnique(c: char, d: char, k: string, l: string)
    requires ShortEscape(c).None? && (c < ' ' || c > '~')
    requires ShortEscape(d).None? && (d < ' ' || d > '~')
    requires CharTo(c, k) == CharTo(d, l)
    ensures c == d && k == l
  {
    hide CharTo, UnitTo;
    LongCharShape(c, k);
    LongCharShape(d, l);
    UnitUnique(FirstUnit(c), FirstUnit(d), AfterFirst(c, k), AfterFirst(d, l));
    if c as int >= 0x10000 && d as int >= 0x10000 {
      UnitUnique(0xDC00 + (c as int - 0x10000) % 1024, 0xDC00 + (d as int - 0x10000) % 1024, k, l);
    }
  }

  /** The second character of an escape tells the short ones apart from the long. */
  lemma EscapeMark(c: char, k: string)
    requires ShortEscape(c).Some? || c < ' ' || c > '~'
    ensures |CharTo(c, k)| > 1
    ensures CharTo(c, k)[1] == if ShortEscape(c).Some? then ShortEscape(c).value else 'u'
    ensures ShortEscape(c).Some? ==> CharTo(c, k)[2..] == k
  {
  }

  lemma ShortEscapeInjective(c: char, d: char)
    requires ShortEscape(c).Some? && ShortEscape(c) == ShortEscape(d)
    ensures c == d
  {
  }

  lemma CharUnique(c: char, d: char, k: string, l: string)
    requires CharTo(c, k) == CharTo(d, l)
    ensures c == d && k == l
  {
    CharHead(c, k);
    CharHead(d, l);
    if CharTo(c, k)[0] != '\\' {
      assert k == CharTo(c, k)[1..] && l == CharTo(d, l)[1..];
    } else {
      EscapeMark(c, k);
      EscapeMark(d, l);
      if ShortEscape(c).Some? {
        ShortEscapeInjective(c, d);
      } else {
        LongCharUnique(c, d, k, l);
      }
    }
  }

  lemma {:induction false} StringUnique(s: string, t: string, k: string, l: string)
    requires StringTo(s, k) == StringTo(t, l)
    ensures s == t && k == l
  {
    if s == [] && t == [] {
      assert k == StringTo(s, k)[1..] && l == StringTo(t, l)[1..];
    } else if s == [] {
      CharHead(t[0], StringTo(t[1..], l));
    } else if t == [] {
      CharHead(s[0], StringTo(s[1..], k));
    } else {
      CharUnique(s[0], t[0], StringTo(s[1..], k), StringTo(t[1..], l));
      StringUnique(s[1..], t[1..], k, l);
      assert s == [s[0]] + s[1..] && t == [t[0]] + t[1..];
    }
  }

  /** What can follow a value: a separator or a closing bracket. */
  predicate Stops(k: string) {
    k != [] && (k[0] == ',' || k[0] == ']' || k[0] == '}' || k[0] == '|')
  }

  /** The first character of a + k. */
  lemma HeadOf(a: string, k: string)
    requires k != []
    ensures (a + k)[0] == if a == [] then k[0] else a[0]
    ensures if a == [] then a + k == k else (a + k)[1..] == a[1..] + k && a == [a[0]] + a[1..]
  {
  }

  lemma {:induction false} NumberUnique(a: string, b: string, k: string, l: string)
    requires forall i :: 0 <= i < |a| ==> NumberChar(a[i])
    requires forall i :: 0 <= i < |b| ==> NumberChar(b[i])
    requires Stops(k) && Stops(l) && a + k == b + l
    ensures a == b && k == l
  {
    HeadOf(a, k);
    HeadOf(b, l);
    if a != [] {
      NumberUnique(a[1..], b[1..], k, l);
    }
  }

  /** The first character of a value's text tells its kind. */
  function Kind(c: char): nat {
    if c == 'n' then 0 else if c == 't' then 1 else if c == 'f' then 2
    else if c == '\"' then 3 else if c == '[' then 4 else if c == '{' then 5 else 6
  }

  lemma PrintHead(v: Json, k: string)
    requires WellFormed(v)
    ensures PrintTo(v, k) != []
    ensures Kind(PrintTo(v, k)[0]) == match v
      case JNull => 0
      case JBool(b) => if b then 1 else 2
      case JString(_) => 3
      case JArray(_) => 4
      case JObject(_) => 5
      case JNumber(_) => 6
    ensures PrintTo(v, k)[0] != ',' && PrintTo(v, k)[0] != ']' && PrintTo(v, k)[0] != '}'
  {
  }

  lemma ItemsStop(items: Items, k: string)
    ensures Stops(ItemsTo(items, false, k))
  {
  }

  lemma MembersStop(members: Members, k: string)
    ensures Stops(MembersTo(members, false, k))
  {
  }

  /** A value's text is self-delimiting: before a stop, it determines both the
      value and what follows. */
  lemma {:induction false} PrintUnique(v: Json, w: Json, k: string, l: string)
    requires WellFormed(v) && WellFormed(w) && Stops(k) && Stops(l)
    requires PrintTo(v, k) == PrintTo(w, l)
    ensures v == w && k == l
    decreases v
  {
    PrintHead(v, k);
    PrintHead(w, l);
    var s, t := PrintTo(v, k), PrintTo(w, l);
    match v {
      case JNull => assert k == s[4..] && l == t[4..];
      case JBool(b) => assert b ==> k == s[4..] && l == t[4..];
                       assert !b ==> k == s[5..] && l == t[5..];
      case JNumber(text) => NumberUnique(text, w.text, k, l);
      case JString(x) =>
        assert StringTo(x, k) == s[1..] && StringTo(w.s, l) == t[1..];
        StringUnique(x, w.s, k, l);
      case JArray(items) =>
        assert ItemsTo(items, true, k) == s[1..] && ItemsTo(w.items, true, l) == t[1..];
        ItemsUnique(items, w.items, true, k, l);
      case JObject(members) =>
        assert MembersTo(members, true, k) == s[1..] && MembersTo(w.members, true, l) == t[1..];
        MembersUnique(members, w.members, true, k, l);
    }
  }

  lemma ItemsHead(items: Items, first: bool, k: string)
    requires ItemsWellFormed(items)
    ensures ItemsTo(items, first, k) != []
    ensures ItemsTo(items, first, k)[0] == ']' <==> items.INil?
  {
  }

  lemma {:induction false} ItemsUnique(a: Items, b: Items, first: bool, k: string, l: string)
    requires ItemsWellFormed(a) && ItemsWellFormed(b) && Stops(k) && Stops(l)
    requires ItemsTo(a, first, k) == ItemsTo(b, first, l)
    ensures a == b && k == l
    decreases a
  {
    ItemsHead(a, first, k);
    ItemsHead(b, first, l);
    var s, t := ItemsTo(a, first, k), ItemsTo(b, first, l);
    if a.INil? {
      assert k == s[1..] && l == t[1..];
    } else {
      var ra, rb := ItemsTo(a.tail, false, k), ItemsTo(b.tail, false, l);
      ItemsStop(a.tail, k);
      ItemsStop(b.tail, l);
      assert !first ==> PrintTo(a.head, ra) == s[2..] && PrintTo(b.head, rb) == t[2..];
      PrintUnique(a.head, b.head, ra, rb);
      ItemsUnique(a.tail, b.tail, false, k, l);
    }
  }

  lemma MembersHead(members: Members, first: bool, k: string)
    ensures MembersTo(members, first, k) != []
    ensures MembersTo(members, first, k)[0] == '}' <==> members.MNil?
  {
  }

  lemma {:induction false} MembersUnique(a: Members, b: Members, first: bool, k: string, l: string)
    requires MembersWellFormed(a) && MembersWellFormed(b) && Stops(k) && Stops(l)
    requires MembersTo(a, first, k) == MembersTo(b, first, l)
    ensures a == b && k == l
    decreases a
  {
    MembersHead(a, first, k);
    MembersHead(b, first, l);
    var s, t := MembersTo(a, first, k), MembersTo(b, first, l);
    if a.MNil? {
      assert k == s[1..] && l == t[1..];
    } else {
      var va := PrintTo(a.value, MembersTo(a.tail, false, k));
      var vb := PrintTo(b.value, MembersTo(b.tail, false, l));
      var n := if first then 1 else 3;
      assert StringTo(a.key, [':', ' '] + va) == s[n..] && StringTo(b.key, [':', ' '] + vb) == t[n..];
      StringUnique(a.key, b.key, [':', ' '] + va, [':', ' '] + vb);
      assert va == ([':', ' '] + va)[2..] && vb == ([':', ' '] + vb)[2..];
      MembersStop(a.tail, k);
      MembersStop(b.tail, l);
      PrintUnique(a.value, b.value, MembersTo(a.tail, false, k), MembersTo(b.tail, false, l));
      MembersUnique(a.tail, b.tail, false, k, l);
    }
  }

  // ----- the payload of an audit row -----

  /** What a row says. A state that is None is the JSON null. */
  datatype Entry = Entry(
    entityType: string,
    entityId: string,
    action: string,
    actor: AuditActorType,
    actorId: Option<string>,
    before: Json,
    after: Json)

  function ActorText(a: AuditActorType): string {
    match a
    case ByGroupAdmin => "group_admin"
    case ByPlatformAdmin => "platform_admin"
    case ByMember => "member"
    case ByWebhook => "webhook"
    case ByReconciliationJob => "reconciliation_job"
  }

  function OptionalText(o: Option<string>): string {
    match o
    case None => ""
    case Some(s) => s
  }

  predicate PipeFree(s: string) {
    forall i :: 0 <= i < |s| ==> s[i] != '|'
  }

  /** Entity types and actions are constants of the code and ids are UUIDs, so
      none of them contains the separator and no id is empty. */
  predicate EntryOk(e: Entry) {
    && PipeFree(e.entityType) && PipeFree(e.entityId) && PipeFree(e.action)
    && (e.actorId.Some? ==> PipeFree(e.actorId.value) && e.actorId.value != "")
    && WellFormed(e.before) && WellFormed(e.after)
  }

  function Join(parts: seq<string>): string {
    if parts == [] then ""
    else if |parts| == 1 then parts[0]
    else parts[0] + (['|'] + Join(parts[1..]))
  }

  function RowPayload(e: Entry, prev: Option<string>): string {
    Join(Labels(e) + [Print(e.before), Print(e.after), OptionalText(prev)])
  }

  /** The fields in front of the JSON ones. */
  function Labels(e: Entry): seq<string> {
    [e.entityType, e.entityId, e.action, ActorText(e.actor), OptionalText(e.actorId)]
  }

  lemma {:induction false} FieldUnique(a: string, b: string, k: string, l: string)
    requires PipeFree(a) && PipeFree(b) && a + (['|'] + k) == b + (['|'] + l)
    ensures a == b && k == l
  {
    HeadOf(a, ['|'] + k);
    HeadOf(b, ['|'] + l);
    if a != [] {
      FieldUnique(a[1..], b[1..], k, l);
    } else {
      assert k == (['|'] + k)[1..] && l == (['|'] + l)[1..];
    }
  }

  /** Each of the parts closed by a separator, then k. */
  function Fields(parts: seq<string>, k: string): string {
    if parts == [] then k else parts[0] + (['|'] + Fields(parts[1..], k))
  }

  lemma {:induction false} JoinSplit(parts: seq<string>, last: seq<string>)
    requires last != []
    ensures Join(parts + last) == Fields(parts, Join(last))
  {
    if parts == [] {
      assert parts + last == last;
    } else {
      assert (parts + last)[1..] == parts[1..] + last;
      JoinSplit(parts[1..], last);
    }
  }

  lemma {:induction false} FieldsUnique(a: seq<string>, b: seq<string>, k: string, l: string)
    requires |a| == |b| && Fields(a, k) == Fields(b, l)
    requires forall i :: 0 <= i < |a| ==> PipeFree(a[i])
    requires forall i :: 0 <= i < |b| ==> PipeFree(b[i])
    ensures a == b && k == l
  {
    if a != [] {
      FieldUnique(a[0], b[0], Fields(a[1..], k), Fields(b[1..], l));
      FieldsUnique(a[1..], b[1..], k, l);
      assert a == [a[0]] + a[1..] && b == [b[0]] + b[1..];
    }
  }

  lemma JsonFieldUnique(v: Json, w: Json, k: string, l: string)
    requires WellFormed(v) && WellFormed(w)
    requires Print(v) + (['|'] + k) == Print(w) + (['|'] + l)
    ensures v == w && k == l
  {
    PrintThen(v, [], ['|'] + k);
    PrintThen(w, [], ['|'] + l);
    assert [] + (['|'] + k) == ['|'] + k && [] + (['|'] + l) == ['|'] + l;
    PrintUnique(v, w, ['|'] + k, ['|'] + l);
    assert k == (['|'] + k)[1..] && l == (['|'] + l)[1..];
  }

  /** The JSON fields and the previous hash. */
  function Body(e: Entry, prev: Option<string>): string {
    Print(e.before) + (['|'] + (Print(e.after) + (['|'] + OptionalText(prev))))
  }

  lemma PayloadShape(e: Entry, prev: Option<string>)
    ensures RowPayload(e, prev) == Fields(Labels(e), Body(e, prev))
  {
    var last := [Print(e.before), Print(e.after), OptionalText(prev)];
    JoinSplit(Labels(e), last);
    JoinSplit(last[..2], last[2..]);
    assert last == last[..2] + last[2..];
    assert last[..2][1..][1..] == [];
  }

  lemma LabelsUnique(e: Entry, f: Entry)
    requires EntryOk(e) && EntryOk(f) && Labels(e) == Labels(f)
    ensures e.entityType == f.entityType && e.entityId == f.entityId && e.action == f.action
    ensures e.actor == f.actor && e.actorId == f.actorId
  {
  }

  lemma LabelsPipeFree(e: Entry)
    requires EntryOk(e)
    ensures forall i :: 0 <= i < |Labels(e)| ==> PipeFree(Labels(e)[i])
  {
  }

  /** A field, and what follows it. */
  function Cell(field: string, rest: string): string {
    field + "|" + rest
  }

  /** The text, field by field. */
  lemma PayloadFields(e: Entry, prev: Option<string>)
    ensures RowPayload(e, prev) ==
      Cell(e.entityType, Cell(e.entityId, Cell(e.action, Cell(ActorText(e.actor),
        Cell(if e.actorId.Some? then e.actorId.value else "",
          Cell(Print(e.before), Cell(Print(e.after), if prev.Some? then prev.value else "")))))))
  {
    hide Cell, Print, ActorText, Join;
    var parts := Labels(e) + [Print(e.before), Print(e.after), OptionalText(prev)];
    JoinTail(parts, 0);
    JoinTail(parts, 1);
    JoinTail(parts, 2);
    JoinTail(parts, 3);
    JoinTail(parts, 4);
    JoinTail(parts, 5);
    JoinTail(parts, 6);
    assert parts[0..] == parts && parts[7..] == [OptionalText(prev)];
    JoinLast(OptionalText(prev));
  }

  lemma JoinLast(part: string)
    ensures Join([part]) == part
  {
  }

  lemma JoinTail(parts: seq<string>, i: nat)
    requires i + 1 < |parts|
    ensures Join(parts[i..]) == Cell(parts[i], Join(parts[i + 1..]))
  {
    assert parts[i..][1..] == parts[i + 1..];
    assert parts[i] + (['|'] + Join(parts[i + 1..])) == parts[i] + "|" + Join(parts[i + 1..]);
  }

  /** The layout of arrays and objects, and of each kind of string character. */
  lemma PrintedLayout()
    ensures Print(JArray(ICons(JNumber("1"), ICons(JBool(true), INil)))) == "[1, true]"
    ensures Print(JObject(MCons("a", JNull, MCons("b", JBool(false), MNil)))) == "{\"a\": null, \"b\": false}"
    ensures CharTo('a', "") == "a" && CharTo('\"', "") == "\\\"" && CharTo('\n', "") == "\\n"
    ensures CharTo('\U{007F}', "") == "\\u007f" && CharTo('\U{20A6}', "") == "\\u20a6"
    ensures CharTo('\U{1F600}', "") == "\\ud83d\\ude00"
  {
    hide Print, CharTo;
    PrintedArray();
    PrintedObject();
    PrintedShort();
    PrintedLong();
    PrintedPair();
  }

  lemma PrintedShort()
    ensures CharTo('a', "") == "a" && CharTo('\"', "") == "\\\"" && CharTo('\n', "") == "\\n"
  {
  }

  lemma PrintedLong()
    ensures CharTo('\U{007F}', "") == "\\u007f" && CharTo('\U{20A6}', "") == "\\u20a6"
  {
  }

  lemma PrintedPair()
    ensures CharTo('\U{1F600}', "") == "\\ud83d\\ude00"
  {
    PrintedUnits();
    hide UnitTo;
    assert CharTo('\U{1F600}', "") == UnitTo(0xD83D, UnitTo(0xDE00, ""));
  }

  lemma PrintedUnits()
    ensures UnitTo(0xDE00, "") == "\\ude00" && UnitTo(0xD83D, "\\ude00") == "\\ud83d\\ude00"
  {
  }

  lemma PrintedArray()
    ensures Print(JArray(ICons(JNumber("1"), ICons(JBool(true), INil)))) == "[1, true]"
  {
    assert ItemsTo(INil, false, []) == "]";
    assert ItemsTo(ICons(JBool(true), INil), false, []) == ", true]";
    assert ItemsTo(ICons(JNumber("1"), ICons(JBool(true), INil)), true, []) == "1, true]";
  }

  lemma PrintedObject()
    ensures Print(JObject(MCons("a", JNull, MCons("b", JBool(false), MNil)))) == "{\"a\": null, \"b\": false}"
  {
    var tail := MCons("b", JBool(false), MNil);
    PrintedTail();
    hide MembersTo;
    assert PrintTo(JNull, ", \"b\": false}") == "null, \"b\": false}";
    FirstMember("a", 'a', JNull, tail, [], "null, \"b\": false}");
    assert Print(JObject(MCons("a", JNull, tail))) == ['{'] + MembersTo(MCons("a", JNull, tail), true, []);
  }

  lemma FirstMember(key: string, c: char, value: Json, tail: Members, k: string, text: string)
    requires key == [c] && ' ' <= c <= '~' && ShortEscape(c).None?
    requires PrintTo(value, MembersTo(tail, false, k)) == text
    ensures MembersTo(MCons(key, value, tail), true, k) == ['\"', c, '\"', ':', ' '] + text
  {
    PrintedMember(key, c, text);
    hide StringTo, PrintTo;
  }

  lemma PrintedTail()
    ensures MembersTo(MCons("b", JBool(false), MNil), false, []) == ", \"b\": false}"
  {
    hide StringTo;
    assert MembersTo(MNil, false, []) == "}";
    assert PrintTo(JBool(false), "}") == "false}";
    PrintedMember("b", 'b', "false}");
  }

  lemma PrintedMember(key: string, c: char, k: string)
    requires key == [c] && ' ' <= c <= '~' && ShortEscape(c).None?
    ensures StringTo(key, [':', ' '] + k) == [c, '\"', ':', ' '] + k
  {
    assert key[1..] == [];
    assert StringTo(key[1..], [':', ' '] + k) == ['\"', ':', ' '] + k;
  }

  /** Equal payloads come from equal entries and equal previous hashes (an empty
      hash counting as none). */
  lemma PayloadUnique(e: Entry, f: Entry, prev: Option<string>, prev': Option<string>)
    requires EntryOk(e) && EntryOk(f) && RowPayload(e, prev) == RowPayload(f, prev')
    ensures e == f && OptionalText(prev) == OptionalText(prev')
  {
    PayloadShape(e, prev);
    PayloadShape(f, prev');
    LabelsPipeFree(e);
    LabelsPipeFree(f);
    FieldsUnique(Labels(e), Labels(f), Body(e, prev), Body(f, prev'));
    LabelsUnique(e, f);
    JsonFieldUnique(e.before, f.before, Print(e.after) + (['|'] + OptionalText(prev)),
                    Print(f.after) + (['|'] + OptionalText(prev')));
    JsonFieldUnique(e.after, f.after, OptionalText(prev), OptionalText(prev'));
  }
}
