/**
 * The team spirit values, `permutation_t`. Their representation lives in
 * wet2util.h, which is not part of this model: the system only composes
 * them, inverts them, starts from the identity and asks for their
 * strength and validity, so they are modelled as an abstract group.
 */
module Spirit {

  /** The operations of permutation_t the system calls, on an element type `G`. */
  datatype Perm<!G> = Perm(mul: (G, G) -> G, inv: G -> G, one: G, strength: G -> int, isValid: G -> bool)

  /** `*` is associative, the default-constructed value is its identity, and `inv` inverts. */
  ghost predicate IsGroup<G(!new)>(p: Perm<G>)
  {
    (forall a, b, c {:trigger p.mul(p.mul(a, b), c), p.mul(a, p.mul(b, c))} :: p.mul(p.mul(a, b), c) == p.mul(a, p.mul(b, c)))
    && (forall a {:trigger p.mul(p.one, a)} :: p.mul(p.one, a) == a)
    && (forall a {:trigger p.mul(a, p.one)} :: p.mul(a, p.one) == a)
    && (forall a {:trigger p.mul(p.inv(a), a)} :: p.mul(p.inv(a), a) == p.one)
    && (forall a {:trigger p.mul(a, p.inv(a))} :: p.mul(a, p.inv(a)) == p.one)
  }

  /** Pre-multiplying by an inverse undoes a pre-multiplication. */
  lemma {:induction false} Cancel<G(!new)>(p: Perm<G>, a: G, b: G)
    requires IsGroup(p)
    ensures p.mul(p.inv(a), p.mul(a, b)) == b && p.mul(a, p.mul(p.inv(a), b)) == b
  {
    assert p.mul(p.mul(p.inv(a), a), b) == p.mul(p.inv(a), p.mul(a, b));
    assert p.mul(p.mul(a, p.inv(a)), b) == p.mul(a, p.mul(p.inv(a), b));
  }
}
