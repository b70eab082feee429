/**
  The server's flag log: one stored array of flagged prompts, listed whole
  by `GET /api/flags` and extended by `POST /api/flags` unless an item with
  the same content is already stored.

  File reads and writes are not performed; their outcomes are parameters,
  and the handlers return what they would write and what they reply.
 */
module FlagLog {

  /** A JSON value. Object members are listed in their order in the object. */
  datatype Json =
    | Null
    | Bool(b: bool)
    | Num(n: int)
    | Str(s: string)
    | Arr(elems: seq<Json>)
    | Obj(members: seq<(string, Json)>)

  /** The largest integer a JavaScript number holds exactly, 2^53 - 1. */
  const MaxSafeInteger: int := 0x1F_FFFF_FFFF_FFFF

  /** The largest array index of an object key, 2^32 - 2. */
  const MaxArrayIndex: int := 0xFFFF_FFFE

  function DigitValue(c: char): (d: nat)
    ensures d < 10
  {
    if '0' <= c <= '9' then c as int - '0' as int else 0
  }

  /** The number a string of decimal digits denotes. */
  function DecimalValue(k: string): (v: nat)
    decreases |k|
  {
    if k == [] then 0 else DecimalValue(k[..|k| - 1]) * 10 + DigitValue(k[|k| - 1])
  }

  /** A key JavaScript treats as an array index: the canonical decimal form
      of an integer from 0 to 2^32 - 2. */
  predicate IsArrayIndex(k: string) {
    && |k| > 0
    && (forall i :: 0 <= i < |k| ==> '0' <= k[i] <= '9')
    && (|k| == 1 || k[0] != '0')
    && DecimalValue(k) <= MaxArrayIndex
  }

  /** The order in which JavaScript enumerates an object's own keys: array
      indices first, ascending, then the other keys; no key twice. */
  predicate InEnumerationOrder(members: seq<(string, Json)>) {
    forall i, j :: 0 <= i < j < |members| ==>
      && members[i].0 != members[j].0
      && (IsArrayIndex(members[j].0) ==>
            IsArrayIndex(members[i].0) && DecimalValue(members[i].0) < DecimalValue(members[j].0))
  }

  /** A value as `JSON.parse` leaves it: numbers are safe integers and
      object members are in enumeration order. On such values two values are
      equal exactly when `JSON.stringify` renders them to the same text. */
  predicate IsParsed(j: Json)
    decreases j
  {
    match j
    case Num(n) => -MaxSafeInteger <= n <= MaxSafeInteger
    case Arr(elems) => forall k :: 0 <= k < |elems| ==> IsParsed(elems[k])
    case Obj(members) =>
      InEnumerationOrder(members) && forall k :: 0 <= k < |members| ==> IsParsed(members[k].1)
    case _ => true
  }

  /** The content of a flag, as the request body parser delivers it. */
  type Content = j: Json | IsParsed(j) witness Null

  /** Member order as written in the text is not kept: `{"b":1,"1":2}` parses
      with key "1" first, so the member list in text order is not a parsed value. */
  lemma IndexKeysComeFirst()
    ensures !IsParsed(Obj([("b", Num(1)), ("1", Num(2))]))
    ensures IsParsed(Obj([("1", Num(2)), ("b", Num(1))]))
  {
    var written: seq<(string, Json)> := [("b", Num(1)), ("1", Num(2))];
    assert DecimalValue("1") == 1;
    assert IsArrayIndex(written[1].0);
    assert written[0].0[0] == 'b';
    assert !IsArrayIndex(written[0].0);
    assert !InEnumerationOrder(written);
  }

  /** One flagged prompt as the client posts it. */
  datatype Flag = Flag(timestamp: string, mode: string, content: Content)

  /** The stored file: empty text, or a JSON array of flags. */
  datatype FileData = EmptyFile | Flags(items: seq<Flag>)

  /** The outcome of reading the stored file. */
  datatype ReadResult = ReadError | ReadOk(data: FileData)

  datatype Option<T> = None | Some(value: T)

  const AlreadyFlagged: string := "Already flagged"

  /** The JSON replies: `{success: true, count, message?}` or a 500 with `{error}`. */
  datatype Reply =
    | Ack(count: nat, message: Option<string>)
    | ServerError(error: string)

  datatype Outcome = Added | Duplicate

  /** The append rule on its own: the new list, the outcome and the count reported. */
  datatype Appended = Appended(flags: seq<Flag>, outcome: Outcome, count: nat)

  /** `JSON.parse(data || '[]')`: an empty file reads as no flags. */
  function Load(data: FileData): (flags: seq<Flag>)
    ensures data.EmptyFile? ==> flags == []
    ensures data.Flags? ==> flags == data.items
  {
    match data
    case EmptyFile => []
    case Flags(items) => items
  }

  /** Some stored item has exactly this content (`flags.some(...)`). */
  function HasContent(flags: seq<Flag>, c: Content): (r: bool)
    ensures r <==> exists i :: 0 <= i < |flags| && flags[i].content == c
    decreases |flags|
  {
    if flags == [] then false
    else if flags[0].content == c then true
    else
      var r := HasContent(flags[1..], c);
      assert forall i :: 1 <= i < |flags| ==> flags[i] == flags[1..][i - 1];
      r
  }

  /** No two stored items share their content. */
  predicate UniqueContents(flags: seq<Flag>) {
    forall i, j :: 0 <= i < j < |flags| ==> flags[i].content != flags[j].content
  }

  /** Append `f` unless an item with the same content is stored. */
  function Append(flags: seq<Flag>, f: Flag): (r: Appended)
    ensures r.outcome == Duplicate <==> exists i :: 0 <= i < |flags| && flags[i].content == f.content
    ensures r.outcome == Added ==> r.flags == flags + [f] && r.count == |flags| + 1
    ensures r.outcome == Duplicate ==> r.flags == flags && r.count == |flags|
  {
    if HasContent(flags, f.content) then Appended(flags, Duplicate, |flags|)
    else
      var grown := flags + [f];
      Appended(grown, Added, |grown|)
  }

  /** Posting the same content again is recognised as a duplicate and changes
      nothing: appending twice is appending once. */
  lemma AppendIdempotent(flags: seq<Flag>, f: Flag)
    ensures var once := Append(flags, f);
      var twice := Append(once.flags, f);
      twice.flags == once.flags && twice.outcome == Duplicate && twice.count == once.count
  {
    var once := Append(flags, f);
    if once.outcome == Added {
      assert once.flags[|flags|] == f;
    }
  }

  /** Only content is compared: the timestamp and mode of the candidate do
      not affect the outcome or the count. */
  lemma OnlyContentMatters(flags: seq<Flag>, f: Flag, g: Flag)
    requires f.content == g.content
    ensures Append(flags, f).outcome == Append(flags, g).outcome
    ensures Append(flags, f).count == Append(flags, g).count
  {
  }

  /** Stored items keep their order and values; at most one item is added,
      at the end. */
  lemma AppendOnlyExtends(flags: seq<Flag>, f: Flag)
    ensures var r := Append(flags, f).flags;
      flags <= r && |r| <= |flags| + 1 && (|r| == |flags| + 1 ==> r[|flags|] == f)
  {
  }

  /** The append rule keeps the stored contents pairwise distinct. */
  lemma AppendKeepsUnique(flags: seq<Flag>, f: Flag)
    requires UniqueContents(flags)
    ensures UniqueContents(Append(flags, f).flags)
  {
    var r := Append(flags, f);
    if r.outcome == Added {
      forall i, j | 0 <= i < j < |r.flags|
        ensures r.flags[i].content != r.flags[j].content
      {
        if j == |flags| {
          assert r.flags[j] == f;
          assert r.flags[i] == flags[i];
        } else {
          assert r.flags[i] == flags[i] && r.flags[j] == flags[j];
        }
      }
    }
  }

  /** What a handler asks to write to the stored file, and what it replies. */
  datatype Effect = Effect(write: Option<seq<Flag>>, reply: Reply)

  /** `GET /api/flags`: the stored list verbatim, or a 500 when the read fails. */
  function List(read: ReadResult): (r: Result)
    ensures read.ReadError? ==> r.Failed?
    ensures read.ReadOk? ==> r == Listing(Load(read.data))
  {
    match read
    case ReadError => Failed("Failed to read flags")
    case ReadOk(data) => Listing(Load(data))
  }

  datatype Result = Listing(flags: seq<Flag>) | Failed(error: string)

  /** `POST /api/flags`: read the stored list, append unless a duplicate, write
      the whole list back, and reply with the count. `writeOk` is the outcome
      of the write. */
  function Post(read: ReadResult, f: Flag, writeOk: bool): (e: Effect)
    ensures read.ReadError? ==> e.write == None && e.reply == ServerError("Failed to read flags")
    ensures read.ReadOk? && HasContent(Load(read.data), f.content) ==>
      e.write == None && e.reply == Ack(|Load(read.data)|, Some(AlreadyFlagged))
    ensures read.ReadOk? && !HasContent(Load(read.data), f.content) ==>
      && e.write == Some(Load(read.data) + [f])
      && e.reply == (if writeOk then Ack(|Load(read.data)| + 1, None) else ServerError("Failed to save flag"))
  {
    match read
    case ReadError => Effect(None, ServerError("Failed to read flags"))
    case ReadOk(data) =>
      var r := Append(Load(data), f);
      if r.outcome == Duplicate then Effect(None, Ack(r.count, Some(AlreadyFlagged)))
      else if writeOk then Effect(Some(r.flags), Ack(r.count, None))
      else Effect(Some(r.flags), ServerError("Failed to save flag"))
  }

  /** The stored file after a handler's effect, when its write succeeds. */
  function Persist(data: FileData, e: Effect): (stored: FileData) {
    match e.write
    case None => data
    case Some(flags) => Flags(flags)
  }

  /** Two posts with different contents to a fresh, empty store, both written
      successfully, are listed afterwards as exactly those two items in order. */
  lemma TwoPostsThenList(a: Flag, b: Flag)
    requires a.content != b.content
    ensures var d1 := Persist(EmptyFile, Post(ReadOk(EmptyFile), a, true));
      var d2 := Persist(d1, Post(ReadOk(d1), b, true));
      List(ReadOk(d2)) == Listing([a, b])
  {
    var d1 := Persist(EmptyFile, Post(ReadOk(EmptyFile), a, true));
    assert d1 == Flags([a]);
  }
}
