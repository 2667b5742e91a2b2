/** The parts of TypeDoc's reflection model that the plugin reads. The host builds the
    tree and hands it over read-only; here it is a map from reflection id to reflection,
    with each parent link given by id. */
module TypeDocModels {

  datatype Option<T> = None | Some(value: T)

  /** A reflection id. TypeDoc numbers reflections in the order it creates them, and a
      parent is created before its children. */
  type NodeId = nat

  /** A numeric `ReflectionKind`. Each named kind is one bit; 0 is "no kind". */
  type KindCode = nat

  const ModuleKind: KindCode := 2
  const CallSignatureKind: KindCode := 4096
  const ParameterKind: KindCode := 32768

  /** `reflection.kindOf(mask)` for a single-bit `mask`: the bit is set in `kind`. */
  predicate KindOf(kind: KindCode, mask: KindCode)
    requires mask > 0
  {
    (kind / mask) % 2 == 1
  }

  /** A kind has its own bit, no bit above it, and adding a bit's value to a kind
      without that bit sets it. The three kinds the plugin tests are told apart. */
  lemma KindBits(kind: KindCode, mask: KindCode)
    requires mask > 0
    ensures KindOf(mask, mask)
    ensures kind < mask ==> !KindOf(kind, mask)
    ensures !KindOf(kind, mask) ==> KindOf(kind + mask, mask)
    ensures !KindOf(ModuleKind, CallSignatureKind) && !KindOf(ModuleKind, ParameterKind)
    ensures !KindOf(CallSignatureKind, ModuleKind) && !KindOf(CallSignatureKind, ParameterKind)
    ensures !KindOf(ParameterKind, ModuleKind) && !KindOf(ParameterKind, CallSignatureKind)
  {
    var q, m := kind / mask, kind % mask;
    assert kind + mask == (q + 1) * mask + m;
    DivideUnique(kind + mask, mask, q + 1, m);
    DivideUnique(mask, mask, 1, 0);
  }

  /** Euclidean division has one quotient and remainder. */
  lemma DivideUnique(n: nat, d: nat, q: nat, m: nat)
    requires d > 0 && m < d && n == q * d + m
    ensures n / d == q && n % d == m
  {
    var q', m' := n / d, n % d;
    if q' < q {
      MultipleGap(q', q, d);
    } else if q' > q {
      MultipleGap(q, q', d);
    }
  }

  /** Two different multiples of `d` lie at least `d` apart. */
  lemma MultipleGap(a: nat, b: nat, d: nat)
    requires a < b
    ensures a * d + d <= b * d
  {
    var k := b - a - 1;
    assert b * d == a * d + d + k * d;
  }

  /** The two `ReflectionFlags` the plugin consults. */
  datatype Flags = Flags(isProtected: bool, isPrivate: bool)

  /** A parsed documentation comment. */
  datatype Comment = Comment(shortText: string, text: string)

  /** One entry of `reflection.sources`. */
  datatype SourceReference = SourceReference(fileName: string, line: nat, character: nat)

  datatype Reflection = Reflection(
    kind: KindCode,
    kindString: Option<string>,
    name: string,
    flags: Flags,
    comment: Option<Comment>,
    sources: Option<seq<SourceReference>>,
    parent: Option<NodeId>)

  type Tree = map<NodeId, Reflection>

  /** Every parent link leads to a reflection of the tree with a smaller id, so walking
      up the parent links always ends at a root. */
  predicate WellFormed(t: Tree)
  {
    forall id :: id in t && t[id].parent.Some? ==>
      t[id].parent.value in t && t[id].parent.value < id
  }

  /** The number of parent links from `id` up to its root. */
  function Depth(t: Tree, id: NodeId): nat
    requires WellFormed(t) && id in t
    decreases id
  {
    match t[id].parent
    case None => 0
    case Some(p) => Depth(t, p) + 1
  }

  /** The ancestor `k` parent links above `id` (`id` itself when `k` is 0). */
  function Ancestor(t: Tree, id: NodeId, k: nat): (a: NodeId)
    requires WellFormed(t) && id in t && k <= Depth(t, id)
    ensures a in t && Depth(t, a) == Depth(t, id) - k
    ensures k == Depth(t, id) ==> t[a].parent.None?
    decreases k
  {
    if k == 0 then id else Ancestor(t, t[id].parent.value, k - 1)
  }

  /** One more step up from an ancestor is the parent of that ancestor. */
  lemma {:induction false} AncestorParent(t: Tree, id: NodeId, k: nat)
    requires WellFormed(t) && id in t && k < Depth(t, id)
    ensures t[Ancestor(t, id, k)].parent == Some(Ancestor(t, id, k + 1))
    decreases k
  {
    if k > 0 {
      AncestorParent(t, t[id].parent.value, k - 1);
    }
  }
}
