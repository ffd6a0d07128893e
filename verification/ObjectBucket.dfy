/** A bucket offering only create-or-verify writes and pinned-generation reads. */
module ObjectBucket {
  import opened Wrappers

  type Bytes = seq<bv8>
  type Digest = Bytes -> string

  const MAXIMUM_GENERATION := 9_223_372_036_854_775_807

  /** An object generation: what the bucket assigns on creation. */
  type Generation = g: int | 0 < g <= MAXIMUM_GENERATION witness 1

  datatype Stored = Stored(generation: Generation, content: Bytes)

  type Objects = map<string, Stored>

  /** What a write returns: the exact stored object. */
  datatype Published = Published(name: string, generation: Generation, size: nat, hash: string)

  /** How one write fares: it answers, or it fails without or after taking effect. */
  datatype Fate = Answers | FailsBefore | FailsAfter

  /** Create when absent; otherwise accept only equal bytes. */
  function Written(objects: Objects, name: string, content: Bytes, generation: Generation, fate: Fate): Objects {
    if fate.FailsBefore? || name in objects then objects else objects[name := Stored(generation, content)]
  }

  function Answer(objects: Objects, digest: Digest, name: string, content: Bytes, generation: Generation, fate: Fate):
    Option<Published>
  {
    if !fate.Answers? then None
    else if name !in objects then Some(Published(name, generation, |content|, digest(content)))
    else if objects[name].content == content
         then Some(Published(name, objects[name].generation, |content|, digest(content)))
    else None
  }

  /** The object is stored, at its generation, with its size and hash. */
  predicate Pinned(objects: Objects, digest: Digest, p: Published) {
    && p.name in objects
    && objects[p.name].generation == p.generation
    && |objects[p.name].content| == p.size
    && digest(objects[p.name].content) == p.hash
  }

  /** Nothing stored is ever replaced or removed. */
  predicate Grows(before: Objects, after: Objects) {
    forall name :: name in before ==> name in after && after[name] == before[name]
  }

  /** An answered write is pinned, and stays so. */
  lemma AnsweredIsPinned(objects: Objects, digest: Digest, name: string, content: Bytes, generation: Generation, fate: Fate)
    ensures Grows(objects, Written(objects, name, content, generation, fate))
    ensures var answer := Answer(objects, digest, name, content, generation, fate);
            answer.Some? ==> Pinned(Written(objects, name, content, generation, fate), digest, answer.value)
                             && Written(objects, name, content, generation, fate)[name].content == content
  {
  }

  lemma PinnedForever(before: Objects, after: Objects, digest: Digest, p: Published)
    requires Pinned(before, digest, p) && Grows(before, after)
    ensures Pinned(after, digest, p)
  {
  }

  /** The exact stored bytes of one generation. */
  function ReadGeneration(objects: Objects, name: string, generation: Generation): Option<Bytes> {
    if name in objects && objects[name].generation == generation then Some(objects[name].content) else None
  }

  /** The generation and the fate of a write are the bucket's choice, so both are given. */
  class Bucket {
    var objects: Objects
    ghost var writes: seq<string>

    method CreateOrVerify(digest: Digest, name: string, content: Bytes, generation: Generation, fate: Fate)
      returns (answer: Option<Published>)
      modifies this
      ensures objects == Written(old(objects), name, content, generation, fate)
      ensures answer == Answer(old(objects), digest, name, content, generation, fate)
      ensures writes == old(writes) + [name]
    {
      answer := Answer(objects, digest, name, content, generation, fate);
      objects := Written(objects, name, content, generation, fate);
      writes := writes + [name];
    }
  }
}
