/** The store of large originals that the optimizer replaces by references. */
module References {
  import opened Delimited
  import opened Optimizer

  /** The task's short tag, the section type and the digest of the content. */
  datatype RefId = RefId(task: string, kind: SectionType, digest: string)

  datatype Reference = Reference(original: string, summary: string)

  type Refs = map<RefId, Reference>

  function BuildRefId(digest: string -> string, task: string, kind: SectionType, content: string): RefId {
    RefId(task, kind, digest(content))
  }

  /** ON CONFLICT the stores update the summary, never the original. */
  function Upsert(refs: Refs, id: RefId, content: string, summary: string): Refs {
    if id in refs then refs[id := refs[id].(summary := summary)] else refs[id := Reference(content, summary)]
  }

  datatype Save = Save(task: string, kind: SectionType, content: string, summary: string)

  function SaveAll(digest: string -> string, refs: Refs, saves: seq<Save>): Refs {
    if saves == [] then refs
    else
      var s := saves[|saves| - 1];
      Upsert(SaveAll(digest, refs, saves[..|saves| - 1]), BuildRefId(digest, s.task, s.kind, s.content), s.content, s.summary)
  }

  /** Once written, an original never changes, whatever collides with its id. */
  lemma {:induction false} OriginalsNeverChange(digest: string -> string, refs: Refs, saves: seq<Save>, id: RefId)
    requires id in refs
    ensures id in SaveAll(digest, refs, saves)
    ensures SaveAll(digest, refs, saves)[id].original == refs[id].original
  {
    if saves == [] {
    } else {
      OriginalsNeverChange(digest, refs, saves[..|saves| - 1], id);
    }
  }

  /** Every stored original has the digest of its id. */
  predicate Faithful(digest: string -> string, refs: Refs) {
    forall id :: id in refs ==> id.digest == digest(refs[id].original)
  }

  lemma {:induction false} SavesAreFaithful(digest: string -> string, refs: Refs, saves: seq<Save>)
    requires Faithful(digest, refs)
    ensures Faithful(digest, SaveAll(digest, refs, saves))
  {
    if saves == [] {
    } else {
      SavesAreFaithful(digest, refs, saves[..|saves| - 1]);
    }
  }

  /** An empty summary is that of a blank original with the digest of the id. */
  ghost predicate Labelled(digest: string -> string, refs: Refs) {
    forall id :: id in refs && refs[id].summary == "" ==> exists c: string :: Blank(c) && digest(c) == id.digest
  }

  ghost predicate Injective(digest: string -> string) {
    forall a: string, b: string :: digest(a) == digest(b) ==> a == b
  }

  /** With an injective digest, the id of any saved content retrieves exactly that content, at any later time. */
  lemma SavedContentIsRecoverable(digest: string -> string, refs: Refs, saves: seq<Save>, i: nat)
    requires Injective(digest) && Faithful(digest, refs) && i < |saves|
    ensures var id := BuildRefId(digest, saves[i].task, saves[i].kind, saves[i].content);
            var after := SaveAll(digest, refs, saves);
            id in after && after[id].original == saves[i].content
  {
    var id := BuildRefId(digest, saves[i].task, saves[i].kind, saves[i].content);
    SavedStays(digest, refs, saves, i);
    SavesAreFaithful(digest, refs, saves);
    var original := SaveAll(digest, refs, saves)[id].original;
    assert digest(original) == digest(saves[i].content);
  }

  lemma {:induction false} SavedStays(digest: string -> string, refs: Refs, saves: seq<Save>, i: nat)
    requires i < |saves|
    ensures BuildRefId(digest, saves[i].task, saves[i].kind, saves[i].content) in SaveAll(digest, refs, saves)
  {
    if i < |saves| - 1 {
      SavedStays(digest, refs, saves[..|saves| - 1], i);
    }
  }
}
