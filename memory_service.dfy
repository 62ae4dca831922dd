/** The backend's long-term memory (backend/memory_service.py): the list of remembered facts
    loaded from its file (migrating the old list-of-strings layout), rendered as the context
    for the agent, deleted by id, and extended with the facts the language model finds in
    the last exchange, one copy of each text. The file is modelled by its parsed contents on
    loading and by the list of contents written; the model's reply and the clock readings
    are parameters. */
module MemoryService {
  import opened Wrappers
  import opened Strings
  import BackendMain

  datatype Memory = Memory(id: string, text: string, createdAt: string)

  /** The memory file as `json.load` leaves it: missing, unreadable, the old list of strings,
      or a list of memory records (an empty list is either). */
  datatype StoredFile = Missing | Unreadable | Legacy(items: seq<string>) | Records(records: seq<Memory>)

  /** The date given to migrated memories. */
  const LegacyDate: string := "2024-01-01"

  /** The migration of an old list of strings: the i-th string becomes a memory with id
      `str(i)`. Nothing is lost or reordered and the ids are all different. */
  function Migrate(items: seq<string>): (r: seq<Memory>)
    ensures |r| == |items|
    ensures forall i :: 0 <= i < |r| ==> r[i] == Memory(NatToString(i), items[i], LegacyDate)
  {
    seq(|items|, i requires 0 <= i < |items| => Memory(NatToString(i), items[i], LegacyDate))
  }

  lemma MigrateIdsDistinct(items: seq<string>, i: nat, j: nat)
    requires i < |items| && j < |items| && i != j
    ensures Migrate(items)[i].id != Migrate(items)[j].id
  {
    if NatToString(i) == NatToString(j) {
      NatToStringInjective(i, j);
    }
  }

  /** `_load_memories`: nothing for a missing or unreadable file, the migration of a
      non-empty list of strings, and the records as stored otherwise. */
  function Loaded(file: StoredFile): (r: seq<Memory>)
    ensures file.Missing? || file.Unreadable? ==> r == []
    ensures file.Legacy? ==> |r| == |file.items| && forall i :: 0 <= i < |r| ==> r[i].text == file.items[i]
    ensures file.Records? ==> r == file.records
  {
    match file
    case Missing => []
    case Unreadable => []
    case Legacy(items) => Migrate(items)
    case Records(records) => records
  }

  /** The lines joined with '\n'. */
  function JoinLines(lines: seq<string>): string
  {
    if lines == [] then "" else if |lines| == 1 then lines[0] else lines[0] + "\n" + JoinLines(lines[1..])
  }

  /** Every line can be found in the joined text. */
  lemma {:induction false} JoinLinesContains(lines: seq<string>, i: nat)
    requires i < |lines|
    ensures Contains(JoinLines(lines), lines[i])
  {
    if |lines| == 1 {
      ContainsSelf(lines[0]);
      ContainsExtend(lines[0], lines[0], "", "");
      assert "" + lines[0] + "" == lines[0];
    } else if i == 0 {
      ContainsSelf(lines[0]);
      ContainsExtend(lines[0], lines[0], "", "\n" + JoinLines(lines[1..]));
      assert "" + lines[0] + ("\n" + JoinLines(lines[1..])) == JoinLines(lines);
    } else {
      JoinLinesContains(lines[1..], i - 1);
      ContainsExtend(JoinLines(lines[1..]), lines[i], lines[0] + "\n", "");
      assert lines[0] + "\n" + JoinLines(lines[1..]) + "" == JoinLines(lines);
    }
  }

  lemma ContainsSelf(s: string)
    ensures Contains(s, s)
  {
    assert s[..|s|] == s;
  }

  const ContextHeader: string := "LONG TERM MEMORY (Facts about the user):\n"

  /** The bullet line of a memory. */
  function Bullet(m: Memory): string
  {
    "- " + m.text
  }

  /** `get_context`: empty without memories, otherwise the header and one bullet line per
      memory. */
  function Context(memories: seq<Memory>): (r: string)
    ensures memories == [] <==> r == ""
    ensures memories != [] ==> ContextHeader <= r
  {
    if memories == [] then ""
    else ContextHeader + JoinLines(seq(|memories|, i requires 0 <= i < |memories| => Bullet(memories[i])))
  }

  /** Every remembered fact reaches the agent: its bullet is in the context. */
  lemma ContextMentions(memories: seq<Memory>, i: nat)
    requires i < |memories|
    ensures Contains(Context(memories), Bullet(memories[i]))
  {
    var lines := seq(|memories|, j requires 0 <= j < |memories| => Bullet(memories[j]));
    JoinLinesContains(lines, i);
    ContainsExtend(JoinLines(lines), lines[i], ContextHeader, "");
    assert ContextHeader + JoinLines(lines) + "" == Context(memories);
  }

  /** `kept` holds exactly the memories of `memories` whose id is not `id`. */
  ghost predicate KeepsOthers(kept: seq<Memory>, memories: seq<Memory>, id: string)
  {
    forall m :: m in kept <==> m in memories && m.id != id
  }

  /** Some memory has the id. */
  predicate HasId(memories: seq<Memory>, id: string)
  {
    exists i :: 0 <= i < |memories| && memories[i].id == id
  }

  /** `[m for m in self.memories if m['id'] != memory_id]`. */
  function Without(memories: seq<Memory>, id: string): (r: seq<Memory>)
    ensures |r| <= |memories|
    ensures KeepsOthers(r, memories, id)
    ensures |r| < |memories| <==> HasId(memories, id)
  {
    if memories == [] then []
    else
      var rest := Without(memories[1..], id);
      assert forall i :: 1 <= i < |memories| ==> memories[i] == memories[1..][i - 1];
      if memories[0].id == id then rest else [memories[0]] + rest
  }

  /** Each memory without the id is kept as often as it occurs, and none with it. */
  lemma WithoutSpec(memories: seq<Memory>, id: string)
    ensures forall m :: multiset(Without(memories, id))[m] == if m.id == id then 0 else multiset(memories)[m]
  {
    forall m {
      WithoutCount(memories, id, m);
    }
  }

  /** One step of the comprehension: the head is kept unless it has the id. */
  lemma WithoutCons(memories: seq<Memory>, id: string)
    requires memories != []
    ensures Without(memories, id) == (if memories[0].id == id then [] else [memories[0]]) + Without(memories[1..], id)
  {
  }

  lemma {:induction false} WithoutCount(memories: seq<Memory>, id: string, m: Memory)
    ensures multiset(Without(memories, id))[m] == if m.id == id then 0 else multiset(memories)[m]
  {
    if memories != [] {
      var x, rest := memories[0], memories[1..];
      WithoutCount(rest, id, m);
      WithoutCons(memories, id);
      assert multiset(memories) == multiset{x} + multiset(rest) by {
        assert memories == [x] + rest;
      }
    }
  }

  /** The comprehension works element by element, so it distributes over concatenation and
      keeps the order of what it keeps. */
  lemma {:induction false} WithoutAppend(a: seq<Memory>, b: seq<Memory>, id: string)
    ensures Without(a + b, id) == Without(a, id) + Without(b, id)
  {
    if a == [] {
      assert a + b == b;
      assert Without(a, id) + Without(b, id) == Without(b, id);
    } else {
      WithoutAppend(a[1..], b, id);
      WithoutAppendStep(a, b, id);
    }
  }

  /** The inductive step of `WithoutAppend`: the head of `a` is kept or dropped on both sides. */
  lemma WithoutAppendStep(a: seq<Memory>, b: seq<Memory>, id: string)
    requires a != []
    requires Without(a[1..] + b, id) == Without(a[1..], id) + Without(b, id)
    ensures Without(a + b, id) == Without(a, id) + Without(b, id)
  {
    var head := if a[0].id == id then [] else [a[0]];
    assert Without(a + b, id) == head + Without(a[1..] + b, id) by {
      AppendTail(a, b);
      WithoutCons(a + b, id);
    }
    WithoutCons(a, id);
    AppendAssoc(head, Without(a[1..], id), Without(b, id));
  }

  lemma AppendTail<T>(a: seq<T>, b: seq<T>)
    requires a != []
    ensures (a + b)[0] == a[0] && (a + b)[1..] == a[1..] + b
  {
  }

  lemma AppendAssoc<T>(x: seq<T>, y: seq<T>, z: seq<T>)
    ensures x + (y + z) == (x + y) + z
  {
  }

  /** Whether some memory already has this text. */
  predicate Remembers(memories: seq<Memory>, text: string)
  {
    exists i :: 0 <= i < |memories| && memories[i].text == text
  }

  /** No two memories share a text. */
  predicate DistinctTexts(memories: seq<Memory>)
  {
    forall i, j :: 0 <= i < j < |memories| ==> memories[i].text != memories[j].text
  }

  /** A clock reading: milliseconds (the new id) and the creation time text. */
  datatype Stamp = Stamp(ms: nat, createdAt: string)

  /** One fact of the loop: appended unless its text is already remembered. */
  function AddFact(memories: seq<Memory>, fact: string, stamp: Stamp): seq<Memory>
  {
    if Remembers(memories, fact) then memories else memories + [Memory(NatToString(stamp.ms), fact, stamp.createdAt)]
  }

  /** The facts added one after another, each with its own clock reading. */
  function AddFacts(memories: seq<Memory>, facts: seq<string>, stamps: seq<Stamp>): seq<Memory>
    requires |facts| == |stamps|
  {
    if facts == [] then memories
    else AddFact(AddFacts(memories, facts[..|facts| - 1], stamps[..|stamps| - 1]), facts[|facts| - 1], stamps[|stamps| - 1])
  }

  /** The de-duplicating append: the old memories stay in front unchanged, every fact is
      remembered afterwards, every added memory carries one of the facts, and distinct texts
      stay distinct. */
  lemma {:induction false} AddFactsSpec(memories: seq<Memory>, facts: seq<string>, stamps: seq<Stamp>)
    requires |facts| == |stamps|
    ensures var r := AddFacts(memories, facts, stamps);
            && memories <= r
            && (forall k :: 0 <= k < |facts| ==> Remembers(r, facts[k]))
            && (forall i :: |memories| <= i < |r| ==> r[i].text in facts && !Remembers(memories, r[i].text))
            && (DistinctTexts(memories) ==> DistinctTexts(r))
  {
    if facts != [] {
      var n := |facts| - 1;
      var facts0, stamps0 := facts[..n], stamps[..n];
      var prev := AddFacts(memories, facts0, stamps0);
      AddFactsSpec(memories, facts0, stamps0);
      var r := AddFact(prev, facts[n], stamps[n]);
      assert r == AddFacts(memories, facts, stamps);
      forall k | 0 <= k < |facts|
        ensures Remembers(r, facts[k])
      {
        if k < n {
          assert facts[k] == facts0[k];
          var i :| 0 <= i < |prev| && prev[i].text == facts0[k];
          assert r[i] == prev[i];
        } else if !Remembers(prev, facts[n]) {
          assert r[|prev|].text == facts[n];
        }
      }
      forall i | |memories| <= i < |r|
        ensures r[i].text in facts && !Remembers(memories, r[i].text)
      {
        if i < |prev| {
          assert r[i] == prev[i];
          assert prev[i].text in facts0;
        } else {
          assert r[i].text == facts[n];
        }
      }
    }
  }

  /** `"\n".join(f"{role}: {text}" for msg in chat_history[-2:])`: the conversation the model
      is shown; `None` when one of those messages has no parts to read. */
  function Snippet(history: seq<BackendMain.ApiMessage>): (r: Option<string>)
    ensures r.Some? <==> forall i :: (if |history| < 2 then 0 else |history| - 2) <= i < |history| ==> |history[i].parts| > 0
  {
    var last := if |history| < 2 then history else history[|history| - 2..];
    if forall i :: 0 <= i < |last| ==> |last[i].parts| > 0 then
      Some(JoinLines(seq(|last|, i requires 0 <= i < |last| && |last[i].parts| > 0 => last[i].role + ": " + last[i].parts[0])))
    else None
  }

  /** Only the last exchange is examined: histories that end with the same two messages give
      the same snippet. */
  lemma SnippetLastTwo(h1: seq<BackendMain.ApiMessage>, h2: seq<BackendMain.ApiMessage>)
    requires |h1| >= 2 && |h2| >= 2
    requires h1[|h1| - 2..] == h2[|h2| - 2..]
    ensures Snippet(h1) == Snippet(h2)
  {
    assert h1[|h1| - 2] == h2[|h2| - 2] && h1[|h1| - 1] == h2[|h2| - 1] by {
      assert h1[|h1| - 2..][0] == h2[|h2| - 2..][0];
      assert h1[|h1| - 2..][1] == h2[|h2| - 2..][1];
    }
  }

  class MemoryStore {
    var memories: seq<Memory>
    /** The contents written to the file, oldest first. */
    var writes: seq<seq<Memory>>

    /** `__init__`: the memories loaded from the file. */
    constructor (file: StoredFile)
      ensures memories == Loaded(file) && writes == []
    {
      memories, writes := Loaded(file), [];
    }

    /** `delete`: the memories with that id are removed and the file rewritten; the answer is
        whether anything was removed. */
    method Delete(id: string) returns (deleted: bool)
      modifies this
      ensures memories == Without(old(memories), id)
      ensures deleted <==> exists i :: 0 <= i < |old(memories)| && old(memories)[i].id == id
      ensures writes == if deleted then old(writes) + [memories] else old(writes)
    {
      var originalCount := |memories|;
      memories := Without(memories, id);
      if |memories| < originalCount {
        writes := writes + [memories];
        return true;
      }
      return false;
    }

    /** `extract_memories`, with the model's reply (the list of facts it found, or `None`
        when the call or its parsing fails) and one clock reading per fact. Nothing happens
        for an empty history. Otherwise the last exchange is shown to the model; a non-empty
        list of facts is added without repeating a remembered text, and the file is
        rewritten. The snippet shown is returned; `None` when it cannot be read, and then the
        call ends there. */
    method ExtractMemories(history: seq<BackendMain.ApiMessage>, reply: Option<seq<string>>, stamps: seq<Stamp>)
      returns (shown: Option<string>)
      requires reply.Some? ==> |stamps| == |reply.value|
      modifies this
      ensures history == [] ==> shown.None?
      ensures history != [] ==> shown == Snippet(history)
      ensures if shown.Some? && reply.Some? && reply.value != [] then
                memories == AddFacts(old(memories), reply.value, stamps) && writes == old(writes) + [memories]
              else
                memories == old(memories) && writes == old(writes)
    {
      if history == [] {
        return None;
      }
      shown := Snippet(history);
      if shown.None? || reply.None? || reply.value == [] {
        return;
      }
      var facts := reply.value;
      for k := 0 to |facts|
        invariant memories == AddFacts(old(memories), facts[..k], stamps[..k])
        invariant writes == old(writes)
      {
        assert facts[..k + 1][..k] == facts[..k] && stamps[..k + 1][..k] == stamps[..k];
        if !Remembers(memories, facts[k]) {
          memories := memories + [Memory(NatToString(stamps[k].ms), facts[k], stamps[k].createdAt)];
        }
      }
      assert facts[..|facts|] == facts && stamps[..|stamps|] == stamps;
      writes := writes + [memories];
    }
  }
}
