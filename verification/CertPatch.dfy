/** The certificate rewrite: a root and an intermediate CA certificate rebuilt
    with the extensions strict validation asks for (sections 4.2.1.3 and
    4.2.1.9 of RFC 5280), re-signed by one throwaway key. */
module CertPatch {
  import opened Wrappers

  type Name = string
  type Time = int

  datatype Oid = BasicConstraintsOid | KeyUsageOid | OtherOid(dotted: string)

  datatype Value =
    | BasicConstraints(ca: bool, pathLength: Option<nat>)
    | KeyUsage(keyCertSign: bool, crlSign: bool, otherUses: set<string>)
    | Other(dotted: string, data: string)

  datatype Extension = Extension(value: Value, critical: bool)

  function OidOf(e: Extension): Oid {
    match e.value
    case BasicConstraints(_, _) => BasicConstraintsOid
    case KeyUsage(_, _, _) => KeyUsageOid
    case Other(dotted, _) => OtherOid(dotted)
  }

  /** What is signed; K, P and S stand for private keys, public keys and signatures. */
  datatype Tbs<P> = Tbs(subject: Name, issuer: Name, publicKey: P, serial: nat,
                        notBefore: Time, notAfter: Time, extensions: seq<Extension>)

  datatype Cert<P, S> = Cert(tbs: Tbs<P>, signature: S)

  datatype Scheme<!K, !P, !S> = Scheme(
    publicOf: K -> P, sign: (K, Tbs<P>) -> S, verify: (P, Tbs<P>, S) -> bool)

  /** The one law assumed of the scheme: what a key signs, its public key verifies. */
  ghost predicate Lawful<K(!new), P(!new), S>(scheme: Scheme<K, P, S>) {
    forall k, t :: scheme.verify(scheme.publicOf(k), t, scheme.sign(k, t))
  }

  // ----- the builder's extension list -----

  predicate IsSet(extensions: seq<Extension>, oid: Oid) {
    exists e :: e in extensions && OidOf(e) == oid
  }

  /** A builder refuses an extension it already has. */
  function AddExtension(extensions: seq<Extension>, e: Extension): Option<seq<Extension>> {
    if IsSet(extensions, OidOf(e)) then None else Some(extensions + [e])
  }

  ghost predicate DistinctOids(extensions: seq<Extension>) {
    forall i, j :: 0 <= i < j < |extensions| ==> OidOf(extensions[i]) != OidOf(extensions[j])
  }

  // ----- what the rewrite makes of an extension list -----

  const CA_KEY_USAGE := KeyUsage(true, true, {})

  function MadeCritical(e: Extension): Extension {
    if e.value.Other? then e else e.(critical := true)
  }

  function AllMadeCritical(extensions: seq<Extension>): (r: seq<Extension>)
    ensures |r| == |extensions|
  {
    if extensions == [] then []
    else AllMadeCritical(extensions[..|extensions| - 1]) + [MadeCritical(extensions[|extensions| - 1])]
  }

  function Patched(extensions: seq<Extension>): seq<Extension> {
    AllMadeCritical(extensions) +
    if IsSet(extensions, KeyUsageOid) then [] else [Extension(CA_KEY_USAGE, true)]
  }

  function Rebuilt<K, P, S>(scheme: Scheme<K, P, S>, cert: Cert<P, S>, issuer: Name, key: K, keepPublicKey: bool)
    : Cert<P, S>
  {
    var tbs := cert.tbs.(
      issuer := issuer,
      publicKey := if keepPublicKey then cert.tbs.publicKey else scheme.publicOf(key),
      extensions := Patched(cert.tbs.extensions));
    Cert(tbs, scheme.sign(key, tbs))
  }

  /** None is the error a certificate with a repeated extension ends in. */
  method Rebuild<K, P, S>(scheme: Scheme<K, P, S>, cert: Cert<P, S>, issuer: Name, key: K, keepPublicKey: bool)
    returns (r: Option<Cert<P, S>>)
    ensures r.Some? <==> DistinctOids(cert.tbs.extensions)
    ensures r.Some? ==> r.value == Rebuilt(scheme, cert, issuer, key, keepPublicKey)
    ensures r.Some? ==>
              var tbs := r.value.tbs;
              && tbs.subject == cert.tbs.subject && tbs.issuer == issuer && tbs.serial == cert.tbs.serial
              && tbs.notBefore == cert.tbs.notBefore && tbs.notAfter == cert.tbs.notAfter
              && tbs.publicKey == (if keepPublicKey then cert.tbs.publicKey else scheme.publicOf(key))
              && tbs.extensions == Patched(cert.tbs.extensions)
              && r.value.signature == scheme.sign(key, tbs)
  {
    var exts := cert.tbs.extensions;
    var extensions: seq<Extension> := [];
    var hasKeyUsage := false;
    var i := 0;
    assert AllMadeCritical(exts[..0]) == [] && !IsSet(exts[..0], KeyUsageOid) && DistinctOids(exts[..0]);
    hide DistinctOids, AllMadeCritical, IsSet;
    while i < |exts|
      invariant 0 <= i <= |exts|
      invariant extensions == AllMadeCritical(exts[..i])
      invariant hasKeyUsage <==> IsSet(exts[..i], KeyUsageOid)
      invariant DistinctOids(exts[..i])
    {
      OneMore(exts, i);
      var added := AddExtension(extensions, MadeCritical(exts[i]));
      if exts[i].value.KeyUsage? {
        hasKeyUsage := true;
      }
      if added.None? {
        return None;
      }
      extensions := added.value;
      i := i + 1;
    }
    assert exts[..i] == exts;
    if !hasKeyUsage {
      SameOids(exts, KeyUsageOid);
      var added := AddExtension(extensions, Extension(CA_KEY_USAGE, true));
      extensions := added.value;
    } else {
      assert extensions + [] == extensions;
    }
    assert extensions == Patched(exts);
    var publicKey := if keepPublicKey then cert.tbs.publicKey else scheme.publicOf(key);
    var tbs := Tbs(cert.tbs.subject, issuer, publicKey, cert.tbs.serial, cert.tbs.notBefore, cert.tbs.notAfter,
        extensions);
    return Some(Cert(tbs, scheme.sign(key, tbs)));
  }

  lemma {:induction false} SameOids(extensions: seq<Extension>, oid: Oid)
    ensures IsSet(AllMadeCritical(extensions), oid) <==> IsSet(extensions, oid)
  {
    if extensions != [] {
      var front, last := extensions[..|extensions| - 1], extensions[|extensions| - 1];
      SameOids(front, oid);
      assert extensions == front + [last];
      SetSnoc(front, last, oid);
      SetSnoc(AllMadeCritical(front), MadeCritical(last), oid);
    }
  }

  lemma SetSnoc(extensions: seq<Extension>, e: Extension, oid: Oid)
    ensures IsSet(extensions + [e], oid) <==> IsSet(extensions, oid) || OidOf(e) == oid
  {}

  lemma OneMore(extensions: seq<Extension>, i: nat)
    requires i < |extensions| && DistinctOids(extensions[..i])
    ensures var e := extensions[i];
            && AllMadeCritical(extensions[..i + 1]) == AllMadeCritical(extensions[..i]) + [MadeCritical(e)]
            && (IsSet(extensions[..i + 1], KeyUsageOid) <==> IsSet(extensions[..i], KeyUsageOid) || e.value.KeyUsage?)
            && (if IsSet(AllMadeCritical(extensions[..i]), OidOf(MadeCritical(e)))
                then !DistinctOids(extensions) else DistinctOids(extensions[..i + 1]))
  {
    var e := extensions[i];
    var front := extensions[..i];
    assert extensions[..i + 1] == front + [e] && (front + [e])[..i] == front;
    SetSnoc(front, e, KeyUsageOid);
    SameOids(front, OidOf(e));
    hide AllMadeCritical;
    if IsSet(front, OidOf(e)) {
      var x :| x in front && OidOf(x) == OidOf(e);
      var k :| 0 <= k < i && front[k] == x;
      assert extensions[k] == x;
    } else {
      assert forall k :: 0 <= k < i ==> front[k] in front;
    }
  }

  // ----- what the rewrite keeps and what it gives -----

  lemma {:induction false} MadeCriticalAt(extensions: seq<Extension>, i: nat)
    requires i < |extensions|
    ensures AllMadeCritical(extensions)[i] == MadeCritical(extensions[i])
  {
    if i < |extensions| - 1 {
      MadeCriticalAt(extensions[..|extensions| - 1], i);
    }
  }

  datatype Kind = IsBasicConstraints | IsKeyUsage | IsOther

  function KindOf(e: Extension): Kind {
    match e.value
    case BasicConstraints(_, _) => IsBasicConstraints
    case KeyUsage(_, _, _) => IsKeyUsage
    case Other(_, _) => IsOther
  }

  /** The extensions of one kind, in order. */
  function OfKind(kind: Kind, extensions: seq<Extension>): seq<Extension> {
    if extensions == [] then []
    else OfKind(kind, extensions[..|extensions| - 1]) +
         if KindOf(extensions[|extensions| - 1]) == kind then [extensions[|extensions| - 1]] else []
  }

  lemma OfKindSnoc(kind: Kind, extensions: seq<Extension>, e: Extension)
    ensures OfKind(kind, extensions + [e])
         == if KindOf(e) == kind then OfKind(kind, extensions) + [e] else OfKind(kind, extensions)
  {}

  lemma MadeCriticalSnoc(extensions: seq<Extension>, e: Extension)
    ensures AllMadeCritical(extensions + [e]) == AllMadeCritical(extensions) + [MadeCritical(e)]
  {}

  lemma {:induction false} MadeCriticalOfKind(kind: Kind, extensions: seq<Extension>)
    ensures OfKind(kind, AllMadeCritical(extensions)) == AllMadeCritical(OfKind(kind, extensions))
  {
    if extensions != [] {
      var front, last := extensions[..|extensions| - 1], extensions[|extensions| - 1];
      MadeCriticalOfKind(kind, front);
      assert extensions == front + [last];
      hide AllMadeCritical, OfKind;
      MadeCriticalSnoc(front, last);
      OfKindSnoc(kind, AllMadeCritical(front), MadeCritical(last));
      OfKindSnoc(kind, front, last);
      MadeCriticalSnoc(OfKind(kind, front), last);
    }
  }

  lemma {:induction false} OthersUntouched(extensions: seq<Extension>)
    ensures AllMadeCritical(OfKind(IsOther, extensions)) == OfKind(IsOther, extensions)
  {
    if extensions != [] {
      var front, last := extensions[..|extensions| - 1], extensions[|extensions| - 1];
      OthersUntouched(front);
      assert extensions == front + [last];
      hide AllMadeCritical, OfKind;
      OfKindSnoc(IsOther, front, last);
      MadeCriticalSnoc(OfKind(IsOther, front), last);
    }
  }

  lemma LastIsNew(extensions: seq<Extension>)
    requires DistinctOids(extensions) && extensions != []
    ensures DistinctOids(extensions[..|extensions| - 1])
    ensures !IsSet(extensions[..|extensions| - 1], OidOf(extensions[|extensions| - 1]))
  {}

  /** With no extension repeated there is at most one key usage. */
  lemma {:induction false} AtMostOneKeyUsage(extensions: seq<Extension>)
    requires DistinctOids(extensions)
    ensures |OfKind(IsKeyUsage, extensions)| == if IsSet(extensions, KeyUsageOid) then 1 else 0
  {
    if extensions != [] {
      var front, last := extensions[..|extensions| - 1], extensions[|extensions| - 1];
      LastIsNew(extensions);
      AtMostOneKeyUsage(front);
      assert extensions == front + [last];
      SetSnoc(front, last, KeyUsageOid);
      hide IsSet, DistinctOids;
    }
  }

  /** The key usage a rewritten certificate ends up with. */
  function KeyUsageAfter(extensions: seq<Extension>): Value {
    var own := OfKind(IsKeyUsage, extensions);
    if own == [] then CA_KEY_USAGE else own[0].value
  }

  /** The other extensions keep their order, values and criticality; there is
      exactly one key usage, critical, the old one if there was one; basic
      constraints are made critical, never added. */
  lemma PatchedExtensions(extensions: seq<Extension>)
    requires DistinctOids(extensions)
    ensures var p := Patched(extensions);
            && OfKind(IsOther, p) == OfKind(IsOther, extensions)
            && OfKind(IsBasicConstraints, p) == AllMadeCritical(OfKind(IsBasicConstraints, extensions))
            && OfKind(IsKeyUsage, p) == [Extension(KeyUsageAfter(extensions), true)]
  {
    var made := AllMadeCritical(extensions);
    MadeCriticalOfKind(IsOther, extensions);
    OthersUntouched(extensions);
    MadeCriticalOfKind(IsBasicConstraints, extensions);
    MadeCriticalOfKind(IsKeyUsage, extensions);
    AtMostOneKeyUsage(extensions);
    var own := OfKind(IsKeyUsage, extensions);
    hide IsSet, DistinctOids, OfKind;
    if IsSet(extensions, KeyUsageOid) {
      OfKindMembers(IsKeyUsage, extensions, own[0]);
      assert own == [own[0]] && own[..0] == [];
      assert Patched(extensions) == made;
    } else {
      OfKindSnoc(IsOther, made, Extension(CA_KEY_USAGE, true));
      OfKindSnoc(IsBasicConstraints, made, Extension(CA_KEY_USAGE, true));
      OfKindSnoc(IsKeyUsage, made, Extension(CA_KEY_USAGE, true));
    }
  }

  lemma {:induction false} OfKindMembers(kind: Kind, extensions: seq<Extension>, e: Extension)
    ensures e in OfKind(kind, extensions) <==> e in extensions && KindOf(e) == kind
  {
    if extensions != [] {
      OfKindMembers(kind, extensions[..|extensions| - 1], e);
      assert extensions == extensions[..|extensions| - 1] + [extensions[|extensions| - 1]];
    }
  }

  lemma StillDistinct(extensions: seq<Extension>)
    requires DistinctOids(extensions)
    ensures DistinctOids(Patched(extensions)) && IsSet(Patched(extensions), KeyUsageOid)
  {
    var made, p := AllMadeCritical(extensions), Patched(extensions);
    forall i | 0 <= i < |made| ensures OidOf(made[i]) == OidOf(extensions[i]) && extensions[i] in extensions {
      MadeCriticalAt(extensions, i);
    }
    SameOids(extensions, KeyUsageOid);
    hide AllMadeCritical;
    if IsSet(extensions, KeyUsageOid) {
      assert p == made;
    } else {
      assert p == made + [Extension(CA_KEY_USAGE, true)] && p[|made|] in p;
    }
  }

  /** Extension by extension: the value stays, only basic constraints and key usage
      become critical, and one key usage of a CA is added at the end if there was none. */
  lemma PatchedOneByOne(extensions: seq<Extension>)
    ensures var p := Patched(extensions); var n := |extensions|;
            && p[n..] == (if exists e :: e in extensions && e.value.KeyUsage? then []
                          else [Extension(KeyUsage(true, true, {}), true)])
            && |p| >= n
            && forall i :: 0 <= i < n ==>
                 && p[i].value == extensions[i].value
                 && p[i].critical == (extensions[i].critical || !extensions[i].value.Other?)
  {
    var made := AllMadeCritical(extensions);
    forall i | 0 <= i < |extensions| ensures made[i] == MadeCritical(extensions[i]) { MadeCriticalAt(extensions, i); }
    hide AllMadeCritical;
    assert IsSet(extensions, KeyUsageOid) <==> exists e :: e in extensions && e.value.KeyUsage?;
  }

  /** A second rewrite leaves the extensions alone. */
  lemma PatchedTwice(extensions: seq<Extension>)
    requires DistinctOids(extensions)
    ensures Patched(Patched(extensions)) == Patched(extensions)
  {
    var made, p := AllMadeCritical(extensions), Patched(extensions);
    StillDistinct(extensions);
    assert Patched(p) == AllMadeCritical(p);
    hide IsSet, DistinctOids, AllMadeCritical;
    forall i | 0 <= i < |p| ensures AllMadeCritical(p)[i] == p[i] {
      MadeCriticalAt(p, i);
      if i < |made| {
        MadeCriticalAt(extensions, i);
      }
    }
  }

  // ----- validation -----

  const AUTHORITY_KEY_ID := "2.5.29.35"
  const SUBJECT_KEY_ID := "2.5.29.14"

  /** Where both are given, the child's authority key identifier is the issuer's
      subject key identifier. */
  ghost predicate KeyIdsMatch(child: seq<Extension>, issuer: seq<Extension>) {
    forall a, b ::
      a in child && b in issuer && OidOf(a) == OtherOid(AUTHORITY_KEY_ID) && OidOf(b) == OtherOid(SUBJECT_KEY_ID) ==>
        a.value.data == b.value.data
  }

  ghost predicate IssuedBy<K, P, S>(scheme: Scheme<K, P, S>, child: Cert<P, S>, issuer: Cert<P, S>) {
    && child.tbs.issuer == issuer.tbs.subject
    && scheme.verify(issuer.tbs.publicKey, child.tbs, child.signature)
    && KeyIdsMatch(child.tbs.extensions, issuer.tbs.extensions)
  }

  /** Basic constraints of a CA with this many CAs allowed below it. */
  predicate MarksCa(e: Extension, below: nat) {
    e.value.BasicConstraints? && e.value.ca && (e.value.pathLength.None? || below <= e.value.pathLength.value)
  }

  /** A subject key identifier, and unless self-signed the issuer's: sections
      4.2.1.2 and 4.2.1.1 of RFC 5280. */
  predicate CarriesKeyIds(extensions: seq<Extension>, selfSigned: bool) {
    && IsSet(extensions, OtherOid(SUBJECT_KEY_ID))
    && (selfSigned || IsSet(extensions, OtherOid(AUTHORITY_KEY_ID)))
  }

  /** What strict validation demands of a CA certificate. */
  ghost predicate StrictCa(extensions: seq<Extension>, below: nat, selfSigned: bool) {
    && (exists e :: e in extensions && e.critical && MarksCa(e, below))
    && (exists e :: e in extensions && e.value.KeyUsage? && e.value.keyCertSign)
    && CarriesKeyIds(extensions, selfSigned)
  }

  /** What it takes of the certificate before the rewrite. */
  ghost predicate Repairable(extensions: seq<Extension>, below: nat, selfSigned: bool) {
    && (exists e :: e in extensions && MarksCa(e, below))
    && (forall e :: e in extensions && e.value.KeyUsage? ==> e.value.keyCertSign)
    && CarriesKeyIds(extensions, selfSigned)
  }

  predicate InForce<P, S>(cert: Cert<P, S>, now: Time) { cert.tbs.notBefore <= now <= cert.tbs.notAfter }

  /** A leaf accepted through one intermediate up to a self-signed root. */
  ghost predicate Accepted<K, P, S>(
      scheme: Scheme<K, P, S>, leaf: Cert<P, S>, inter: Cert<P, S>, root: Cert<P, S>, now: Time)
  {
    && IssuedBy(scheme, leaf, inter) && IssuedBy(scheme, inter, root) && IssuedBy(scheme, root, root)
    && InForce(leaf, now) && InForce(inter, now) && InForce(root, now)
    && IsSet(leaf.tbs.extensions, OtherOid(AUTHORITY_KEY_ID))
    && StrictCa(inter.tbs.extensions, 0, false) && StrictCa(root.tbs.extensions, 1, true)
  }

  lemma {:induction false} MadeCriticalMembers(extensions: seq<Extension>, e: Extension)
    ensures e in AllMadeCritical(extensions) <==> exists x :: x in extensions && MadeCritical(x) == e
  {
    forall i | 0 <= i < |extensions| ensures AllMadeCritical(extensions)[i] == MadeCritical(extensions[i]) {
      MadeCriticalAt(extensions, i);
    }
    hide AllMadeCritical;
    if x :| x in extensions && MadeCritical(x) == e {
      var i :| 0 <= i < |extensions| && extensions[i] == x;
      assert AllMadeCritical(extensions)[i] == e;
    }
  }

  lemma PatchedOthers(extensions: seq<Extension>, e: Extension)
    requires e.value.Other?
    ensures e in Patched(extensions) <==> e in extensions
  {
    MadeCriticalMembers(extensions, e);
    hide AllMadeCritical, IsSet;
    assert e in extensions ==> MadeCritical(e) == e;
  }

  lemma KeyIdsKept(child: seq<Extension>, issuer: seq<Extension>)
    ensures KeyIdsMatch(Patched(child), issuer) <==> KeyIdsMatch(child, issuer)
    ensures KeyIdsMatch(child, Patched(issuer)) <==> KeyIdsMatch(child, issuer)
  {
    hide Patched;
    forall e: Extension | e.value.Other? ensures e in Patched(child) <==> e in child { PatchedOthers(child, e); }
    forall e: Extension | e.value.Other? ensures e in Patched(issuer) <==> e in issuer { PatchedOthers(issuer, e); }
  }

  lemma SameKeyIds(extensions: seq<Extension>, selfSigned: bool)
    ensures CarriesKeyIds(Patched(extensions), selfSigned) <==> CarriesKeyIds(extensions, selfSigned)
  {
    hide Patched;
    forall e: Extension | e.value.Other? ensures e in Patched(extensions) <==> e in extensions {
      PatchedOthers(extensions, e);
    }
    assert forall e: Extension, d :: OidOf(e) == OtherOid(d) ==> e.value.Other?;
  }

  /** The rewritten certificate is a strict CA exactly when the original marks a
      CA, has no key usage that withholds certificate signing, and carries the
      key identifiers, which the rewrite never adds. */
  lemma StrictAfterwards(extensions: seq<Extension>, below: nat, selfSigned: bool)
    requires DistinctOids(extensions)
    ensures StrictCa(Patched(extensions), below, selfSigned) <==> Repairable(extensions, below, selfSigned)
  {
    SameKeyIds(extensions, selfSigned);
    hide CarriesKeyIds;
    var p := Patched(extensions);
    forall e ensures e in AllMadeCritical(extensions) <==> exists x :: x in extensions && MadeCritical(x) == e {
      MadeCriticalMembers(extensions, e);
    }
    hide AllMadeCritical;
    if x :| x in extensions && MarksCa(x, below) {
      assert MadeCritical(x) in p && MarksCa(MadeCritical(x), below);
    }
    if x :| x in extensions && x.value.KeyUsage? {
      assert MadeCritical(x) in p;
      forall y | y in extensions && y.value.KeyUsage? ensures y == x {
        OneOfAnOid(extensions, x, y);
      }
    } else {
      assert Extension(CA_KEY_USAGE, true) in p;
    }
  }

  lemma OneOfAnOid(extensions: seq<Extension>, x: Extension, y: Extension)
    requires DistinctOids(extensions) && x in extensions && y in extensions && OidOf(x) == OidOf(y)
    ensures x == y
  {}

  /** The main block: both certificates signed by one key, the intermediate
      issued in the root's name and keeping its own public key. */
  method PatchChain<K, P, S>(scheme: Scheme<K, P, S>, root: Cert<P, S>, inter: Cert<P, S>, throwaway: K)
    returns (r: Option<(Cert<P, S>, Cert<P, S>)>)
    ensures r.Some? <==> DistinctOids(root.tbs.extensions) && DistinctOids(inter.tbs.extensions)
    ensures r.Some? ==>
      && r.value.0 == Rebuilt(scheme, root, root.tbs.subject, throwaway, false)
      && r.value.1 == Rebuilt(scheme, inter, root.tbs.subject, throwaway, true)
  {
    var newRoot := Rebuild(scheme, root, root.tbs.subject, throwaway, false);
    if newRoot.None? {
      return None;
    }
    var newInter := Rebuild(scheme, inter, root.tbs.subject, throwaway, true);
    if newInter.None? {
      return None;
    }
    return Some((newRoot.value, newInter.value));
  }

  /** For every leaf: the patched chain accepts it exactly when the original
      intermediate issued it, the certificates are in force, the key identifiers
      already matched and both CA certificates were repairable; and the
      intermediate must have been issued in the root's name. */
  lemma PatchedChainAccepts<K(!new), P(!new), S>(
      scheme: Scheme<K, P, S>, leaf: Cert<P, S>, inter: Cert<P, S>, root: Cert<P, S>, key: K, issuer: Name, now: Time)
    requires Lawful(scheme) && DistinctOids(inter.tbs.extensions) && DistinctOids(root.tbs.extensions)
    ensures Accepted(scheme, leaf, Rebuilt(scheme, inter, issuer, key, true),
                     Rebuilt(scheme, root, root.tbs.subject, key, false), now)
       <==> && issuer == root.tbs.subject
            && IssuedBy(scheme, leaf, inter) && IsSet(leaf.tbs.extensions, OtherOid(AUTHORITY_KEY_ID))
            && KeyIdsMatch(inter.tbs.extensions, root.tbs.extensions)
            && KeyIdsMatch(root.tbs.extensions, root.tbs.extensions)
            && InForce(leaf, now) && InForce(inter, now) && InForce(root, now)
            && Repairable(inter.tbs.extensions, 0, false) && Repairable(root.tbs.extensions, 1, true)
  {
    hide Patched, KeyIdsMatch, StrictCa, Repairable, DistinctOids, IsSet;
    var newInter := Rebuilt(scheme, inter, issuer, key, true);
    var newRoot := Rebuilt(scheme, root, root.tbs.subject, key, false);
    StrictAfterwards(inter.tbs.extensions, 0, false);
    StrictAfterwards(root.tbs.extensions, 1, true);
    KeyIdsKept(leaf.tbs.extensions, inter.tbs.extensions);
    BothKeyIdsKept(inter.tbs.extensions, root.tbs.extensions);
    BothKeyIdsKept(root.tbs.extensions, root.tbs.extensions);
    assert scheme.verify(newRoot.tbs.publicKey, newInter.tbs, newInter.signature);
    assert scheme.verify(newRoot.tbs.publicKey, newRoot.tbs, newRoot.signature);
  }

  lemma BothKeyIdsKept(child: seq<Extension>, issuer: seq<Extension>)
    ensures KeyIdsMatch(Patched(child), Patched(issuer)) <==> KeyIdsMatch(child, issuer)
  {
    KeyIdsKept(child, Patched(issuer));
    KeyIdsKept(child, issuer);
    hide KeyIdsMatch, Patched;
  }
}
