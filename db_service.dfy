/** The persistence layer's own rules (services/dbService.ts): the day key that groups chat
    messages, the per-day chat documents and how they are flattened back into one history,
    and what the readers return when the database is missing or a read fails. The
    database itself is an abstract key-value store: a read's outcome is a parameter. */
module DbService {
  import opened Wrappers
  import opened Strings
  import opened Types

  // ---------------------------------------------------------------- the day key

  /** The `YYYY-MM-DD` key of a local calendar date: the full year as written, then the month
      (`getMonth() + 1`, so `month0` counts from 0) and the day, both padded to two digits. */
  function DayKey(year: nat, month0: nat, day: nat): string
  {
    NatToString(year) + "-" + Pad2(month0 + 1) + "-" + Pad2(day)
  }

  /** Reads a key back into year, month (counted from 1) and day. */
  function ParseDayKey(key: string): Option<(nat, nat, nat)>
  {
    match ReadNumber(key, '-')
    case None => None
    case Some((year, rest)) =>
      match ReadNumber(rest, '-')
      case None => None
      case Some((month, dayText)) =>
        if AllDigits(dayText) then Some((year, month, DigitsValue(dayText))) else None
  }

  /** Reading a key back gives the year, the month counted from 1 and the day it was made
      from, for any month and day of at most two digits. */
  lemma DayKeyRoundTrip(year: nat, month0: nat, day: nat)
    requires month0 + 1 < 100 && day < 100
    ensures ParseDayKey(DayKey(year, month0, day)) == Some((year, month0 + 1, day))
  {
    var y, m, d := NatToString(year), Pad2(month0 + 1), Pad2(day);
    NatToStringRoundTrip(year);
    assert DayKey(year, month0, day) == y + ['-'] + (m + "-" + d);
    ReadNumberJoin(y, '-', m + "-" + d);
    assert m + "-" + d == m + ['-'] + d;
    ReadNumberJoin(m, '-', d);
  }

  /** Two dates share a key only when they are the same date, so each day has its own
      document. */
  lemma DayKeyInjective(y1: nat, m1: nat, d1: nat, y2: nat, m2: nat, d2: nat)
    requires m1 + 1 < 100 && d1 < 100 && m2 + 1 < 100 && d2 < 100
    requires DayKey(y1, m1, d1) == DayKey(y2, m2, d2)
    ensures y1 == y2 && m1 == m2 && d1 == d2
  {
    DayKeyRoundTrip(y1, m1, d1);
    DayKeyRoundTrip(y2, m2, d2);
  }

  /** A key is ten characters long for a four-digit year. */
  lemma DayKeyLength(year: nat, month0: nat, day: nat)
    requires 1000 <= year <= 9999 && month0 + 1 < 100 && day < 100
    ensures |DayKey(year, month0, day)| == 10
  {
    var a := year / 10;
    var b := a / 10;
    assert |NatToString(b / 10)| == 1;
    assert |NatToString(b)| == 2;
    assert |NatToString(a)| == 3;
    assert |NatToString(year)| == 4;
  }

  // ---------------------------------------------------------------- daily chat documents

  /** The `messages` field of a daily document as it is read: missing, some value that is
      not an array, or an array of messages. */
  datatype MessagesField = NoMessages | NotAnArray | Messages(items: seq<ChatMessage>)

  /** A document of `daily_chats`: its id (the day key) and its `messages` field. */
  datatype DayDoc = DayDoc(id: string, messages: MessagesField)

  /** The messages a document contributes to the history. */
  function DocMessages(d: DayDoc): seq<ChatMessage>
  {
    if d.messages.Messages? then d.messages.items else []
  }

  /** The documents' message arrays one after the other, in document order. */
  function Flatten(docs: seq<DayDoc>): seq<ChatMessage>
  {
    if docs == [] then [] else Flatten(docs[..|docs| - 1]) + DocMessages(docs[|docs| - 1])
  }

  /** Flattening works document by document. */
  lemma {:induction false} FlattenAppend(a: seq<DayDoc>, b: seq<DayDoc>)
    ensures Flatten(a + b) == Flatten(a) + Flatten(b)
    decreases |b|
  {
    if b == [] {
      assert a + b == a;
    } else {
      var n := |b| - 1;
      FlattenAppend(a, b[..n]);
      assert (a + b)[..|a + b| - 1] == a + b[..n];
    }
  }

  /** A document whose `messages` is missing or not an array contributes nothing. */
  lemma FlattenSkips(a: seq<DayDoc>, d: DayDoc, b: seq<DayDoc>)
    requires !d.messages.Messages?
    ensures Flatten(a + [d] + b) == Flatten(a + b)
  {
    FlattenAppend(a + [d], b);
    FlattenAppend(a, b);
  }

  /** A message is in the history exactly when it is in the array of some document. */
  lemma {:induction false} FlattenMembership(docs: seq<DayDoc>, m: ChatMessage)
    ensures m in Flatten(docs) <==> exists i :: 0 <= i < |docs| && m in DocMessages(docs[i])
  {
    if docs != [] {
      var n := |docs| - 1;
      FlattenMembership(docs[..n], m);
      assert forall i :: 0 <= i < n ==> docs[..n][i] == docs[i];
    }
  }

  /** How a read ended: with the data, or with an error carrying its code. */
  datatype Fetch<T> = Fetched(value: T) | Failed(code: string)

  /** What a reader gives its caller: a value, or the error re-thrown. */
  datatype Reply<T> = Ok(value: T) | Thrown(code: string)

  const PermissionDenied: string := "permission-denied"

  /** `getChatHistory`: with no database, nothing; a permission error is re-thrown; any other
      error gives nothing; otherwise the flattened documents. */
  function ChatHistory(dbReady: bool, read: Fetch<seq<DayDoc>>): (r: Reply<seq<ChatMessage>>)
  {
    if !dbReady then Ok([])
    else match read
      case Failed(code) => if code == PermissionDenied then Thrown(code) else Ok([])
      case Fetched(docs) => Ok(Flatten(docs))
  }

  /** The `forEach` that pushes each document's array into `allMessages`. */
  method GetChatHistory(dbReady: bool, read: Fetch<seq<DayDoc>>) returns (r: Reply<seq<ChatMessage>>)
    ensures r == ChatHistory(dbReady, read)
    ensures r.Thrown? <==> dbReady && read == Failed(PermissionDenied)
  {
    if !dbReady {
      return Ok([]);
    }
    match read {
      case Failed(code) =>
        if code == PermissionDenied {
          return Thrown(code);
        }
        return Ok([]);
      case Fetched(docs) =>
        var all: seq<ChatMessage> := [];
        for i := 0 to |docs|
          invariant all == Flatten(docs[..i])
        {
          assert docs[..i + 1][..i] == docs[..i];
          if docs[i].messages.Messages? {
            all := all + docs[i].messages.items;
          }
        }
        assert docs[..|docs|] == docs;
        return Ok(all);
    }
  }

  /** The index of the first document with id `key`, if any. */
  function FindDoc(docs: seq<DayDoc>, key: string): (r: Option<nat>)
    ensures r.None? <==> forall i :: 0 <= i < |docs| ==> docs[i].id != key
    ensures r.Some? ==> r.value < |docs| && docs[r.value].id == key &&
                        forall i :: 0 <= i < r.value ==> docs[i].id != key
  {
    if docs == [] then None
    else if docs[0].id == key then Some(0)
    else match FindDoc(docs[1..], key)
      case None => None
      case Some(k) => Some(k + 1)
  }

  /** `arrayUnion(message)` on a `messages` field: the message is added at the end unless an
      equal one is already there; a missing or non-array field becomes the one-message array. */
  function Union(field: MessagesField, msg: ChatMessage): (r: MessagesField)
  {
    if field.Messages? then
      if msg in field.items then field else Messages(field.items + [msg])
    else Messages([msg])
  }

  /** `setDoc(..., { merge: true })` of the message on the document `key`: the existing
      document is merged in place, a missing one is created (at the end of the snapshot). */
  function SavedDocs(docs: seq<DayDoc>, key: string, msg: ChatMessage): seq<DayDoc>
  {
    match FindDoc(docs, key)
    case Some(i) => docs[i := DayDoc(key, Union(docs[i].messages, msg))]
    case None => docs + [DayDoc(key, Messages([msg]))]
  }

  /** Saving writes only to the document of its own day: every other document is kept as it
      was, a created document has that key, and the saved message is in that document. */
  lemma SavedDocsOnlyItsDay(docs: seq<DayDoc>, key: string, msg: ChatMessage)
    ensures var r := SavedDocs(docs, key, msg);
            && |docs| <= |r| <= |docs| + 1
            && (forall i :: 0 <= i < |docs| && docs[i].id != key ==> r[i] == docs[i])
            && (forall i :: 0 <= i < |r| && r[i].id == key ==> (i < |docs| && docs[i].id == key) || i == |docs|)
            && (exists i :: 0 <= i < |r| && r[i].id == key && msg in DocMessages(r[i]))
  {
    var r := SavedDocs(docs, key, msg);
    match FindDoc(docs, key)
    case Some(i) => assert r[i].id == key && msg in DocMessages(r[i]);
    case None => assert r[|docs|].id == key && msg in DocMessages(r[|docs|]);
  }

  /** A saved message is read back by the history. */
  lemma SavedMessageRead(docs: seq<DayDoc>, key: string, msg: ChatMessage)
    ensures msg in Flatten(SavedDocs(docs, key, msg))
  {
    var r := SavedDocs(docs, key, msg);
    SavedDocsOnlyItsDay(docs, key, msg);
    FlattenMembership(r, msg);
  }

  /** Saving the same message twice is the same as saving it once (`arrayUnion` does not
      repeat an element). */
  lemma SaveIdempotent(docs: seq<DayDoc>, key: string, msg: ChatMessage)
    ensures SavedDocs(SavedDocs(docs, key, msg), key, msg) == SavedDocs(docs, key, msg)
  {
    var r := SavedDocs(docs, key, msg);
    match FindDoc(docs, key)
    case Some(i) =>
      FindDocFirst(r, key, i);
    case None =>
      FindDocFirst(r, key, |docs|);
  }

  /** The search finds the first document with the key. */
  lemma FindDocFirst(docs: seq<DayDoc>, key: string, p: nat)
    requires p < |docs| && docs[p].id == key
    requires forall i :: 0 <= i < p ==> docs[i].id != key
    ensures FindDoc(docs, key) == Some(p)
  {
  }

  /** The chat documents of one user, in the order the collection lists them. */
  class DailyChats {
    var docs: seq<DayDoc>

    constructor (docs: seq<DayDoc>)
      ensures this.docs == docs
    {
      this.docs := docs;
    }

    /** `saveChatMessage`: the message goes to the document keyed by its own local date
        (`year`, `month0`, `day` are that date as the clock reads it). */
    method SaveChatMessage(msg: ChatMessage, year: nat, month0: nat, day: nat)
      modifies this
      ensures docs == SavedDocs(old(docs), DayKey(year, month0, day), msg)
    {
      var key := DayKey(year, month0, day);
      var found := FindDoc(docs, key);
      match found {
        case Some(i) =>
          docs := docs[i := DayDoc(key, Union(docs[i].messages, msg))];
        case None =>
          docs := docs + [DayDoc(key, Messages([msg]))];
      }
    }
  }

  // ---------------------------------------------------------------- other readers

  /** `getCollection`: with no database, nothing; a permission error is re-thrown; any other
      error gives nothing; otherwise the documents' data. */
  function GetCollection<T>(dbReady: bool, read: Fetch<seq<T>>): (r: Reply<seq<T>>)
    ensures !dbReady ==> r == Ok([])
    ensures dbReady && read.Fetched? ==> r == Ok(read.value)
    ensures dbReady && read.Failed? ==> (r.Thrown? <==> read.code == PermissionDenied)
    ensures r.Thrown? ==> r.code == PermissionDenied
    ensures dbReady && read.Failed? && read.code != PermissionDenied ==> r == Ok([])
  {
    if !dbReady then Ok([])
    else match read
      case Failed(code) => if code == PermissionDenied then Thrown(code) else Ok([])
      case Fetched(items) => Ok(items)
  }

  /** The categories every user starts with. */
  const DefaultCategories: seq<string> := ["Personal", "Work", "Wellness"]

  /** `getCategories`. The read gives the settings document when it exists, and in it the
      `list` field when that is present (an empty list is present). */
  function GetCategories(dbReady: bool, read: Fetch<Option<Option<seq<string>>>>): (r: Reply<seq<string>>)
    ensures r.Thrown? <==> dbReady && read == Failed(PermissionDenied)
    ensures r.Ok? && !(dbReady && read.Fetched? && read.value.Some? && read.value.value.Some?) ==>
              r.value == DefaultCategories
    ensures dbReady && read.Fetched? && read.value.Some? && read.value.value.Some? ==>
              r == Ok(read.value.value.value)
  {
    if !dbReady then Ok(DefaultCategories)
    else match read
      case Failed(code) => if code == PermissionDenied then Thrown(code) else Ok(DefaultCategories)
      case Fetched(None) => Ok(DefaultCategories)
      case Fetched(Some(None)) => Ok(DefaultCategories)
      case Fetched(Some(Some(list))) => Ok(list)
  }
}
