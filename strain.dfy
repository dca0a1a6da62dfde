/** The linear lattice strain reported between two slabs: for each cell
    vector, the percent by which its length in the first slab exceeds its
    length in the second. Vector lengths are taken as given; the square
    roots that produce them are not part of this model. */
module Strain {
  import opened Common

  /** `(n1 - n2) / n2 * 100` for lengths `n1` and `n2`. */
  function LinearStrain(n1: real, n2: real): (s: real)
    requires n2 > 0.0
    ensures s == 0.0 <==> n1 == n2
    ensures s > 0.0 <==> n1 > n2
    ensures s < 0.0 <==> n1 < n2
  {
    (n1 - n2) / n2 * 100.0
  }

  /** The strain recovers the first length from the second. */
  lemma StrainRecoversLength(n1: real, n2: real)
    requires n2 > 0.0
    ensures n1 == n2 * (1.0 + LinearStrain(n1, n2) / 100.0)
  {
    var q := (n1 - n2) / n2;
    assert q * n2 == n1 - n2;
    assert LinearStrain(n1, n2) / 100.0 == q;
  }

  /** Measuring in the other direction gives the reciprocal growth factor:
      `(1 + s12/100) * (1 + s21/100) == 1`. */
  lemma StrainReciprocal(n1: real, n2: real)
    requires n1 > 0.0 && n2 > 0.0
    ensures (100.0 + LinearStrain(n1, n2)) * (100.0 + LinearStrain(n2, n1)) == 10000.0
  {
    StrainRecoversLength(n1, n2);
    StrainRecoversLength(n2, n1);
    var f, g := 1.0 + LinearStrain(n1, n2) / 100.0, 1.0 + LinearStrain(n2, n1) / 100.0;
    assert n1 == n2 * f && n2 == n1 * g;
    assert n2 * f == (n1 * g) * f;
    assert (n1 * g) * f == n1 * (f * g);
    assert n1 * (f * g - 1.0) == 0.0;
    assert f * g == 1.0;
    assert 100.0 + LinearStrain(n1, n2) == 100.0 * f && 100.0 + LinearStrain(n2, n1) == 100.0 * g;
    assert (100.0 * f) * (100.0 * g) == 10000.0 * (f * g);
  }

  /** The strain along a, b and c from the cell-vector lengths of two
      slabs, as `calculate_lattice_strain` and `calculate_strain` log it. */
  function LatticeStrain(lengths1: Vec3, lengths2: Vec3): (s: Vec3)
    requires lengths2.x > 0.0 && lengths2.y > 0.0 && lengths2.z > 0.0
    ensures s == Vec3(0.0, 0.0, 0.0) <==> lengths1 == lengths2
    ensures forall k :: 0 <= k < 3 ==> (Component(s, k) > 0.0 <==> Component(lengths1, k) > Component(lengths2, k))
  {
    Vec3(LinearStrain(lengths1.x, lengths2.x),
         LinearStrain(lengths1.y, lengths2.y),
         LinearStrain(lengths1.z, lengths2.z))
  }

  /** The single-slab variant compares every cell vector with itself, so
      it always reports zero strain. */
  lemma SelfStrainIsZero(lengths: Vec3)
    requires lengths.x > 0.0 && lengths.y > 0.0 && lengths.z > 0.0
    ensures LatticeStrain(lengths, lengths) == Vec3(0.0, 0.0, 0.0)
  {
  }
}
