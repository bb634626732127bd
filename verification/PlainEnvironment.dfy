/** A concrete environment, for examples: hashing that changes nothing, signatures that are always valid, and files that
    are printed trees. */
module PlainEnvironment {
  import opened Wrappers
  import opened Models

  /** The signed data of an update is its key; its delta hash is the commitment of the delta that goes with it. */
  function Other(key: string): string {
    if key == "a" then "b" else "a"
  }

  const PLAIN := Primitives(
    (d: SuffixData) => d.deltaHash, (s: string) => true, (s: string) => Ok(()),
    (key: string) => Ok(UpdateSignedData(key, Other(key))),
    (key: string) => Ok(RecoverSignedData(key, Other(key), Other(key))),
    (key: string) => Ok(DeactivateSignedData("did", key)),
    (p: Patch) => Ok(()), (d: Delta) => true, (t: Option<string>) => true,
    (s: string) => s, (s: string) => s, (s: string) => Some(s),
    (d: Delta) => d.updateCommitment, (jws: Jws, key: string) => true)

  // ------------------------------------------------------------ trees and their text

  datatype Tree = Leaf(text: string) | Pair(left: Tree, right: Tree)

  /** A text that shows where it ends. */
  function Quoted(s: string): string {
    if s == "" then "." else "," + [s[0]] + Quoted(s[1..])
  }

  function Printed(tree: Tree): string {
    match tree
    case Leaf(text) => "l" + Quoted(text)
    case Pair(left, right) => "p" + Printed(left) + Printed(right)
  }

  lemma {:induction false} QuotedIsUnique(a: string, b: string, s: string, t: string)
    requires Quoted(a) + s == Quoted(b) + t
    ensures a == b && s == t
  {
    var x, y := Quoted(a) + s, Quoted(b) + t;
    assert x[0] == Quoted(a)[0] && y[0] == Quoted(b)[0];
    if a == "" {
      assert x[1..] == s && y[1..] == t;
    } else {
      assert x[1] == a[0] && y[1] == b[0];
      assert x[2..] == Quoted(a[1..]) + s && y[2..] == Quoted(b[1..]) + t;
      QuotedIsUnique(a[1..], b[1..], s, t);
      assert a == [a[0]] + a[1..] && b == [b[0]] + b[1..];
    }
  }

  /** The first character tells a leaf from a pair; what follows is put in order. */
  lemma PrintedHead(tree: Tree, rest: string)
    ensures Printed(tree) + rest != ""
    ensures tree.Leaf? ==> (Printed(tree) + rest)[0] == 'l' && (Printed(tree) + rest)[1..] == Quoted(tree.text) + rest
    ensures tree.Pair? ==> (Printed(tree) + rest)[0] == 'p'
                           && (Printed(tree) + rest)[1..] == Printed(tree.left) + (Printed(tree.right) + rest)
  {
    match tree
    case Leaf(text) => FirstAndRest('l', Quoted(text), "", rest);
    case Pair(left, right) => FirstAndRest('p', Printed(left), Printed(right), rest);
  }

  lemma FirstAndRest(c: char, a: string, b: string, rest: string)
    ensures [c] + a + b + rest == [c] + (a + (b + rest)) && ([c] + a + b + rest)[1..] == a + (b + rest)
    ensures b == "" ==> [c] + a + b + rest == [c] + a + rest && a + (b + rest) == a + rest
  {
  }

  lemma {:induction false} PrintedIsUnique(a: Tree, b: Tree, s: string, t: string)
    requires Printed(a) + s == Printed(b) + t
    ensures a == b && s == t
  {
    PrintedHead(a, s);
    PrintedHead(b, t);
    match a
    case Leaf(text) =>
      QuotedIsUnique(text, b.text, s, t);
    case Pair(left, right) =>
      PrintedIsUnique(left, b.left, Printed(right) + s, Printed(b.right) + t);
      PrintedIsUnique(right, b.right, s, t);
  }

  // ------------------------------------------------------------ models as trees

  ghost predicate Injective<T(!new), U(!new)>(f: T -> U) {
    forall x, y :: f(x) == f(y) ==> x == y
  }

  function TextTree(s: string): Tree {
    Leaf(s)
  }

  function OptionTree<T>(f: T -> Tree, o: Option<T>): Tree {
    match o
    case None => Leaf("")
    case Some(x) => Pair(Leaf(""), f(x))
  }

  function SeqTree<T>(f: T -> Tree, s: seq<T>): Tree {
    if s == [] then Leaf("") else Pair(f(s[0]), SeqTree(f, s[1..]))
  }

  function Optional<T>(f: T -> Tree): Option<T> -> Tree {
    o => OptionTree(f, o)
  }

  function Each<T>(f: T -> Tree): seq<T> -> Tree {
    s => SeqTree(f, s)
  }

  lemma OptionalIsInjective<T(!new)>(f: T -> Tree)
    requires Injective(f)
    ensures Injective(Optional(f))
  {
  }

  lemma {:induction false} SameElements<T(!new)>(f: T -> Tree, a: seq<T>, b: seq<T>)
    requires Injective(f) && SeqTree(f, a) == SeqTree(f, b)
    ensures a == b
  {
    if a != [] {
      SameElements(f, a[1..], b[1..]);
      assert a == [a[0]] + a[1..] && b == [b[0]] + b[1..];
    }
  }

  lemma EachIsInjective<T(!new)>(f: T -> Tree)
    requires Injective(f)
    ensures Injective(Each(f))
  {
    forall a, b | Each(f)(a) == Each(f)(b)
      ensures a == b
    {
      SameElements(f, a, b);
    }
  }

  function ReferenceTree(r: Reference): Tree {
    Pair(Leaf(r.didSuffix), Leaf(r.revealValue))
  }

  function SuffixDataTree(d: SuffixData): Tree {
    Pair(Pair(Leaf(d.deltaHash), Leaf(d.recoveryCommitment)), Optional(TextTree)(d.didType))
  }

  function KeyTree(k: PublicKey): Tree {
    Pair(Leaf(k.id), Leaf(k.content))
  }

  function ServiceTree(s: Service): Tree {
    Pair(Leaf(s.id), Leaf(s.content))
  }

  function DocumentTree(d: DocumentModel): Tree {
    Pair(Optional(Each(KeyTree))(d.publicKeys), Optional(Each(ServiceTree))(d.services))
  }

  function PatchTree(p: Patch): Tree {
    match p
    case Replace(document) => Pair(Leaf("r"), DocumentTree(document))
    case AddPublicKeys(keys) => Pair(Leaf("k"), Each(KeyTree)(keys))
    case RemovePublicKeys(ids) => Pair(Leaf("K"), Each(TextTree)(ids))
    case AddServices(services) => Pair(Leaf("s"), Each(ServiceTree)(services))
    case RemoveServices(ids) => Pair(Leaf("S"), Each(TextTree)(ids))
  }

  function DeltaTree(d: Delta): Tree {
    Pair(Each(PatchTree)(d.patches), Leaf(d.updateCommitment))
  }

  function CoreOperationsTree(o: CoreOperations): Tree {
    Pair(Optional(Each(SuffixDataTree))(o.create),
         Pair(Optional(Each(ReferenceTree))(o.recover), Optional(Each(ReferenceTree))(o.deactivate)))
  }

  function CoreIndexTree(m: CoreIndexFileModel): Tree {
    Pair(Pair(Optional(TextTree)(m.writerLockId), Optional(TextTree)(m.provisionalIndexFileUri)),
         Pair(Optional(TextTree)(m.coreProofFileUri), Optional(CoreOperationsTree)(m.operations)))
  }

  function CoreProofsTree(p: CoreProofs): Tree {
    Pair(Optional(Each(TextTree))(p.recover), Optional(Each(TextTree))(p.deactivate))
  }

  function CoreProofTree(m: CoreProofFileModel): Tree {
    Optional(CoreProofsTree)(m.operations)
  }

  function ProvisionalOperationsTree(o: ProvisionalOperations): Tree {
    Optional(Each(ReferenceTree))(o.update)
  }

  function ProvisionalIndexTree(m: ProvisionalIndexFileModel): Tree {
    Pair(Each(TextTree)(m.chunks),
         Pair(Optional(ProvisionalOperationsTree)(m.operations), Optional(TextTree)(m.provisionalProofFileUri)))
  }

  function ProvisionalProofsTree(p: ProvisionalProofs): Tree {
    Optional(Each(TextTree))(p.update)
  }

  function ProvisionalProofTree(m: ProvisionalProofFileModel): Tree {
    Optional(ProvisionalProofsTree)(m.operations)
  }

  function ChunkTree(m: ChunkFileModel): Tree {
    Optional(Each(Optional(DeltaTree)))(m.deltas)
  }

  lemma CoreTreesAreInjective()
    ensures Injective(CoreIndexTree) && Injective(CoreProofTree)
  {
    OptionalIsInjective(TextTree);
    EachIsInjective(TextTree);
    OptionalIsInjective(Each(TextTree));
    EachIsInjective(SuffixDataTree);
    OptionalIsInjective(Each(SuffixDataTree));
    EachIsInjective(ReferenceTree);
    OptionalIsInjective(Each(ReferenceTree));
    OptionalIsInjective(CoreOperationsTree);
    OptionalIsInjective(CoreProofsTree);
  }

  lemma ProvisionalTreesAreInjective()
    ensures Injective(ProvisionalIndexTree) && Injective(ProvisionalProofTree)
  {
    OptionalIsInjective(TextTree);
    EachIsInjective(TextTree);
    OptionalIsInjective(Each(TextTree));
    EachIsInjective(ReferenceTree);
    OptionalIsInjective(Each(ReferenceTree));
    OptionalIsInjective(ProvisionalOperationsTree);
    OptionalIsInjective(ProvisionalProofsTree);
  }

  lemma ChunkTreeIsInjective()
    ensures Injective(ChunkTree)
  {
    EachIsInjective(TextTree);
    EachIsInjective(KeyTree);
    OptionalIsInjective(Each(KeyTree));
    EachIsInjective(ServiceTree);
    OptionalIsInjective(Each(ServiceTree));
    EachIsInjective(PatchTree);
    OptionalIsInjective(DeltaTree);
    EachIsInjective(Optional(DeltaTree));
    OptionalIsInjective(Each(Optional(DeltaTree)));
  }

  // ------------------------------------------------------------ the codec

  /** A file kind is told by its first character. */
  function Encoder<T>(kind: char, tree: T -> Tree): T -> Buffer {
    m => [kind] + Printed(tree(m))
  }

  ghost function Decoder<T(!new)>(encode: T -> Buffer): Buffer -> Result<T, Error> {
    b => if exists m :: encode(m) == b then var m :| encode(m) == b; Ok(m) else Err(Malformed)
  }

  lemma DecodingUndoesEncoding<T(!new)>(kind: char, tree: T -> Tree, m: T)
    requires Injective(tree)
    ensures Decoder(Encoder(kind, tree))(Encoder(kind, tree)(m)) == Ok(m)
  {
    var encode := Encoder(kind, tree);
    forall n | encode(n) == encode(m)
      ensures n == m
    {
      assert encode(n)[1..] == Printed(tree(n)) && encode(m)[1..] == Printed(tree(m));
      assert Printed(tree(n)) + "" == Printed(tree(m)) + "";
      PrintedIsUnique(tree(n), tree(m), "", "");
    }
  }

  ghost const CODEC := FileCodec(
    Encoder('i', CoreIndexTree), Decoder(Encoder('i', CoreIndexTree)),
    Encoder('p', CoreProofTree), Decoder(Encoder('p', CoreProofTree)),
    Encoder('j', ProvisionalIndexTree), Decoder(Encoder('j', ProvisionalIndexTree)),
    Encoder('q', ProvisionalProofTree), Decoder(Encoder('q', ProvisionalProofTree)),
    Encoder('c', ChunkTree), Decoder(Encoder('c', ChunkTree)))

  /** The trees make a lawful codec: the laws assumed of codecs can be met. */
  lemma CodecIsLawful()
    ensures CODEC.Lawful()
  {
    CoreTreesAreInjective();
    ProvisionalTreesAreInjective();
    ChunkTreeIsInjective();
    forall m {
      DecodingUndoesEncoding('i', CoreIndexTree, m);
    }
    forall m {
      DecodingUndoesEncoding('p', CoreProofTree, m);
    }
    forall m {
      DecodingUndoesEncoding('j', ProvisionalIndexTree, m);
    }
    forall m {
      DecodingUndoesEncoding('q', ProvisionalProofTree, m);
    }
    forall m {
      DecodingUndoesEncoding('c', ChunkTree, m);
    }
  }

  /** The rest of the environment does not matter to the checks of single operations. */
  ghost function ContextWith(p: Primitives): Context {
    Context(p, CODEC, (time: nat) => VersionMetadata(FEE_MULTIPLIER, 1.0), (id: string) => None)
  }

  /** The same, but for one text that is no multihash. */
  const PICKY := PLAIN.(decodeMultihash := (s: string) => if s == "bad" then None else Some(s))
}
