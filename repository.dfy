/** The shared-assignment gallery's store (`repositoryService.ts`): an
    in-memory list seeded with three entries, to which publishing adds a
    new entry at the top. */
module Repository {

  datatype SharedAssignment = SharedAssignment(
    id: string, title: string, description: string, level: string,
    author: string, tags: seq<string>, date: string)

  datatype AssignmentIdea = AssignmentIdea(
    title: string, description: string, implementationSteps: seq<string>,
    connectionToObjectives: string, assessmentStrategy: string)

  const MOCK_DB: seq<SharedAssignment> := [
    SharedAssignment("1", "Podcast Analysis & critique",
      "Students analyze a discipline-specific podcast episode and record a 5-minute critique focusing on rhetorical strategies.",
      "200 (Intermediate)", "Dr. Sarah Jenkins", ["Oral/Presentation", "Critical Thinking"], "Oct 12, 2023"),
    SharedAssignment("2", "Local Ecosystem Field Journal",
      "A semester-long project where students document local biodiversity changes using a digital field journal format.",
      "100 (Introductory)", "Prof. Mark Alverez", ["Multimedia", "Scientific Literacy"], "Nov 05, 2023"),
    SharedAssignment("3", "Ethical AI Policy Debate",
      "Teams draft and defend an AI usage policy for a hypothetical corporation, citing ethical frameworks discussed in class.",
      "400 (Senior/Capstone)", "Dr. Emily Chen", ["Group Work", "Ethics"], "Jan 15, 2024")
  ]

  const PUBLISHED_AUTHOR := "Faculty Member (You)"
  const PUBLISHED_TAGS: seq<string> := ["New", "Gen Ed"]

  /** The entry `publishAssignment` builds; `id` and `date` come from the
      clock. */
  function NewEntry(idea: AssignmentIdea, level: string, id: string, date: string): (e: SharedAssignment)
    ensures e.id == id && e.date == date && e.level == level
    ensures e.title == idea.title && e.description == idea.description
    ensures e.author == PUBLISHED_AUTHOR && e.tags == PUBLISHED_TAGS
  {
    SharedAssignment(id, idea.title, idea.description, level, PUBLISHED_AUTHOR, PUBLISHED_TAGS, date)
  }

  /** The store after the given entries were published, oldest first:
      the newest on top, the seed entries at the bottom. */
  function StoreAfter(published: seq<SharedAssignment>): seq<SharedAssignment> {
    if published == [] then MOCK_DB
    else [published[|published| - 1]] + StoreAfter(published[..|published| - 1])
  }

  /** Each publish adds one entry and the three seed entries stay at the
      bottom, in order. */
  lemma {:induction false} StoreAfterShape(published: seq<SharedAssignment>)
    ensures |StoreAfter(published)| == |published| + 3
    ensures StoreAfter(published)[|published|..] == MOCK_DB
    ensures forall i | 0 <= i < |published| :: StoreAfter(published)[i] == published[|published| - 1 - i]
  {
    if published != [] {
      var prefix := published[..|published| - 1];
      StoreAfterShape(prefix);
      var s := StoreAfter(published);
      assert s == [published[|published| - 1]] + StoreAfter(prefix);
      assert s[|published|..] == StoreAfter(prefix)[|prefix|..];
      forall i | 0 <= i < |published|
        ensures s[i] == published[|published| - 1 - i]
      {
        if i > 0 {
          assert s[i] == StoreAfter(prefix)[i - 1];
        }
      }
    }
  }

  /** The module-level `currentRepository`. */
  class Store {
    var current: seq<SharedAssignment>
    ghost var published: seq<SharedAssignment>

    ghost predicate Valid()
      reads this
    {
      current == StoreAfter(published)
    }

    /** `let currentRepository = [...MOCK_DB]`. */
    constructor()
      ensures Valid() && published == [] && current == MOCK_DB
    {
      current := MOCK_DB;
      published := [];
    }

    /** `getRepository`: a fresh array holding the current entries. */
    method GetRepository() returns (r: array<SharedAssignment>)
      ensures fresh(r) && r[..] == current
    {
      r := new SharedAssignment[|current|](i requires 0 <= i < |current| reads this => current[i]);
    }

    /** `publishAssignment`: the new entry goes on top, the rest follow
        unchanged. */
    method Publish(idea: AssignmentIdea, level: string, id: string, date: string)
      requires Valid()
      modifies this
      ensures Valid() && published == old(published) + [NewEntry(idea, level, id, date)]
      ensures current == [NewEntry(idea, level, id, date)] + old(current)
      ensures |current| == |old(current)| + 1
    {
      var entry := NewEntry(idea, level, id, date);
      published := published + [entry];
      assert published[..|published| - 1] == old(published);
      current := [entry] + current;
    }
  }

  /** An array handed out before a publish keeps the entries it had: the
      copy does not see the new one. */
  method SnapshotThenPublish(store: Store, idea: AssignmentIdea, level: string, id: string, date: string)
    returns (snapshot: array<SharedAssignment>)
    requires store.Valid()
    modifies store
    ensures store.Valid()
    ensures snapshot[..] == old(store.current)
    ensures store.current[1..] == snapshot[..] && |store.current| == snapshot.Length + 1
  {
    snapshot := store.GetRepository();
    store.Publish(idea, level, id, date);
  }
}
