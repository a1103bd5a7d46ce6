/**
 The decisions bootstrap makes about the grid CA (`crates/enrollment/src/bootstrap.rs`,
 `crates/certs/src/verify.rs`): the plan made before any write, and the two decisions made
 while writing, which must not refuse what the plan allowed.

 The certificate digest, the identity check and the name check are parameters, the checks all
 taken at one instant.
 */
module Bootstrap {
  import opened Prelude
  import opened CaActions

  type Der = string

  /** A PEM block that decodes: whether it is tagged CERTIFICATE, and its contents. */
  datatype Block = Block(certificate: bool, der: Der)

  /** Bytes offered as PEM: its blocks in order, `None` for one that does not decode. */
  datatype Text = Text(utf8: bool, tooLarge: bool, blocks: seq<Option<Block>>)

  datatype VerifyError = TooLarge | Malformed | NotCurrentlyValid | Untrusted

  type Sha = Der -> Fingerprint

  type Verifier = (Text, Text, string) -> Result<(), VerifyError>

  type Namer = (Text, string) -> bool

  datatype SecretView = SecretView(authoritative: bool, caCrt: Option<Text>, tlsCrt: Option<Text>, keyMatches: bool)

  const NO_TEXT := Text(true, false, [])

  ghost predicate Injective(sha: Sha) {
    forall a, b :: sha(a) == sha(b) ==> a == b
  }

  // ---- Fingerprints ----

  /** The first block's digest, whatever its tag. */
  function CanonicalFingerprint(sha: Sha, t: Text): Result<Fingerprint, VerifyError> {
    if t.tooLarge then Err(TooLarge)
    else if t.blocks == [] || t.blocks[0].None? then Err(Malformed)
    else Ok(sha(t.blocks[0].value.der))
  }

  predicate Decodes(t: Text) {
    None !in t.blocks
  }

  /** The contents of every CERTIFICATE block that decodes. */
  function Ders(t: Text): set<Der> {
    set b | b in t.blocks && b.Some? && b.value.certificate :: b.value.der
  }

  function CertDers(t: Text): Result<set<Der>, VerifyError> {
    if Decodes(t) then Ok(Ders(t)) else Err(Malformed)
  }

  function BundleFingerprints(sha: Sha, t: Text): Result<set<Fingerprint>, VerifyError> {
    if t.tooLarge then Err(TooLarge)
    else
      match CertDers(t)
      case Err(e) => Err(e)
      case Ok(ders) => if ders == {} then Err(Malformed) else Ok(set der | der in ders :: sha(der))
  }

  function BundleWithin(bundle: Text, anchors: Text): Result<bool, VerifyError> {
    if bundle.tooLarge || anchors.tooLarge then Err(TooLarge)
    else
      match (CertDers(anchors), CertDers(bundle))
      case (Ok(outer), Ok(inner)) => Ok(inner != {} && inner <= outer)
      case _ => Err(Malformed)
  }

  // ---- Decisions ----

  function CopyOf(sha: Sha, view: Option<SecretView>, hub: bool): Option<Copy> {
    if view.None? || (hub && !view.value.authoritative) then None
    else if view.value.caCrt.None? then Some(Unreadable("no ca.crt"))
    else if !view.value.caCrt.value.utf8 then Some(Unreadable("ca.crt is not UTF-8"))
    else
      match BundleFingerprints(sha, view.value.caCrt.value)
      case Ok(fingerprints) => Some(Holds(fingerprints))
      case Err(_) => Some(Unreadable("ca.crt does not parse"))
  }

  function Copies(sha: Sha, bundle: Option<SecretView>, hub: Option<SecretView>): seq<Copy> {
    var b, h := CopyOf(sha, bundle, false), CopyOf(sha, hub, true);
    (if b.Some? then [b.value] else []) + if h.Some? then [h.value] else []
  }

  datatype SiteIdentity = KeepIdentity | Issue(replace: bool) | RefuseIdentity

  predicate ExistingIdentityKept(verify: Verifier, names: Namer, ca: Text, cert: Text, site: string) {
    match verify(ca, cert, site)
    case Ok(_) => true
    case Err(e) => e.NotCurrentlyValid? && names(cert, site)
  }

  function IdentityAction(
    verify: Verifier, names: Namer, view: Option<SecretView>, ca: Text, site: string, force: bool): SiteIdentity
  {
    if view.None? then Issue(force)
    else if force || !view.value.authoritative then Issue(true)
    else
      var cert := if view.value.tlsCrt.Some? && view.value.tlsCrt.value.utf8 then view.value.tlsCrt.value else NO_TEXT;
      if !ExistingIdentityKept(verify, names, ca, cert, site) then RefuseIdentity
      else if !view.value.keyMatches then Issue(true)
      else KeepIdentity
  }

  datatype HubCa = KeepHub | WriteHub | RefuseHub

  function HubCaWrite(view: Option<SecretView>, ca: Text, force: bool): HubCa {
    if view.None? || !view.value.authoritative || force then WriteHub
    else if view.value.caCrt.Some? && view.value.caCrt.value.utf8
            && BundleWithin(ca, view.value.caCrt.value) == Ok(true) then KeepHub
    else RefuseHub
  }

  datatype Plan = LoadCa | MintCa | RefusePlan

  function PlanCa(
    sha: Sha, verify: Verifier, names: Namer, force: bool, site: string,
    key: Option<Text>, bundle: Option<SecretView>, hub: Option<SecretView>, identity: Option<SecretView>)
    : Result<Plan, VerifyError>
  {
    var offered := if force then None else key;
    if offered.Some? && CanonicalFingerprint(sha, offered.value).Err? then
      Err(CanonicalFingerprint(sha, offered.value).error)
    else
      var fingerprint := if offered.Some? then Some(CanonicalFingerprint(sha, offered.value).value) else None;
      var action := Decided(fingerprint, force, Copies(sha, bundle, hub));
      var issued := identity.Some? && identity.value.authoritative && !force;
      Ok(match action
         case Refuse(_) => RefusePlan
         case Mint => if issued then RefusePlan else MintCa
         case Load =>
           if issued && key.Some?
              && IdentityAction(verify, names, identity, key.value, site, false).RefuseIdentity? then RefusePlan
           else LoadCa)
  }

  // ---- The plan against the writes ----

  /** One CERTIFICATE block and nothing else. */
  predicate SingleCertificate(t: Text) {
    |t.blocks| == 1 && t.blocks[0].Some? && t.blocks[0].value.certificate
  }

  /** A block of the key text that the hub's CA does not answer for. */
  predicate Stray(sha: Sha, hub: Copy, b: Option<Block>) {
    b.None? || (b.value.certificate && (hub.Holds? ==> sha(b.value.der) !in hub.fingerprints))
  }

  lemma HubHoldsDer(sha: Sha, hub: SecretView, der: Der)
    requires Injective(sha) && hub.authoritative && CopyOf(sha, Some(hub), true).value.Holds?
    ensures sha(der) in CopyOf(sha, Some(hub), true).value.fingerprints <==> der in Ders(hub.caCrt.value)
  {
  }

  lemma LoadFacts(
    sha: Sha, verify: Verifier, names: Namer, force: bool, site: string,
    key: Option<Text>, bundle: Option<SecretView>, hub: Option<SecretView>, identity: Option<SecretView>)
    requires PlanCa(sha, verify, names, force, site, key, bundle, hub, identity) == Ok(LoadCa)
    ensures !force && key.Some? && CanonicalFingerprint(sha, key.value).Ok?
    ensures AllHold(Copies(sha, bundle, hub), CanonicalFingerprint(sha, key.value).value)
    ensures identity.Some? && identity.value.authoritative ==>
              !IdentityAction(verify, names, identity, key.value, site, false).RefuseIdentity?
  {
    if !force && key.Some? && CanonicalFingerprint(sha, key.value).Ok? {
      UnforcedDecision(Some(CanonicalFingerprint(sha, key.value).value), Copies(sha, bundle, hub));
    } else if !force && key.None? {
      UnforcedDecision(None, Copies(sha, bundle, hub));
    }
  }

  /**
   The hub decision after a plan to load: it refuses exactly when the hub's CA is authoritative and
   the key text has a block the hub's copy does not answer for, or has no certificate at all.
   */
  lemma HubRefusesAfterLoadIff(
    sha: Sha, verify: Verifier, names: Namer, site: string,
    key: Text, bundle: Option<SecretView>, hub: Option<SecretView>, identity: Option<SecretView>)
    requires Injective(sha)
    requires PlanCa(sha, verify, names, false, site, Some(key), bundle, hub, identity) == Ok(LoadCa)
    ensures HubCaWrite(hub, key, false).RefuseHub? <==>
            && hub.Some? && hub.value.authoritative
            && (Ders(key) == {} || exists b :: b in key.blocks && Stray(sha, CopyOf(sha, hub, true).value, b))
  {
    LoadFacts(sha, verify, names, false, site, Some(key), bundle, hub, identity);
    if hub.Some? && hub.value.authoritative {
      var copy := CopyOf(sha, hub, true).value;
      assert copy in Copies(sha, bundle, hub);
      var anchors := hub.value.caCrt.value;
      forall b | b in key.blocks && b.Some? && b.value.certificate
        ensures b.value.der in Ders(key)
        ensures Stray(sha, copy, b) <==> b.value.der !in Ders(anchors)
      {
        HubHoldsDer(sha, hub.value, b.value.der);
      }
      assert Decodes(anchors);
      assert !(exists b :: b in key.blocks && Stray(sha, copy, b)) <==> Decodes(key) && Ders(key) <= Ders(anchors);
    }
  }

  /** With a single-certificate key Secret, whatever the plan allows, the writes never refuse. */
  lemma RefusalPrecedesWrites(
    sha: Sha, verify: Verifier, names: Namer, force: bool, site: string,
    key: Option<Text>, bundle: Option<SecretView>, hub: Option<SecretView>, identity: Option<SecretView>, minted: Text)
    requires Injective(sha) && (key.Some? ==> SingleCertificate(key.value))
    requires !PlanCa(sha, verify, names, force, site, key, bundle, hub, identity).Err?
    ensures var plan := PlanCa(sha, verify, names, force, site, key, bundle, hub, identity).value;
            && (plan.LoadCa? ==>
                  && key.Some?
                  && !HubCaWrite(hub, key.value, force).RefuseHub?
                  && !IdentityAction(verify, names, identity, key.value, site, force).RefuseIdentity?)
            && (plan.MintCa? ==>
                  && !HubCaWrite(hub, minted, force).RefuseHub?
                  && !IdentityAction(verify, names, identity, minted, site, force).RefuseIdentity?)
  {
    var plan := PlanCa(sha, verify, names, force, site, key, bundle, hub, identity).value;
    match plan
    case LoadCa =>
      LoadFacts(sha, verify, names, force, site, key, bundle, hub, identity);
      HubRefusesAfterLoadIff(sha, verify, names, site, key.value, bundle, hub, identity);
      if hub.Some? && hub.value.authoritative {
        var copy := CopyOf(sha, hub, true).value;
        assert copy in Copies(sha, bundle, hub);
        assert key.value.blocks[0].value.der in Ders(key.value);
      }
    case MintCa =>
      if !force {
        UnforcedDecision(if key.Some? then Some(CanonicalFingerprint(sha, key.value).value) else None,
                         Copies(sha, bundle, hub));
      }
    case RefusePlan =>
  }

  /**
   A second certificate in the key Secret breaks it: the plan reads only the first block, the
   write wants every certificate in the hub's copy.
   */
  lemma SecondCertificateIsRefusedLate(sha: Sha, verify: Verifier, names: Namer, site: string, first: Der, second: Der)
    requires first != second
    ensures var key := Text(true, false, [Some(Block(true, first)), Some(Block(true, second))]);
            var hub := Some(SecretView(true, Some(Text(true, false, [Some(Block(true, first))])), None, false));
            && PlanCa(sha, verify, names, false, site, Some(key), None, hub, None) == Ok(LoadCa)
            && HubCaWrite(hub, key, false) == RefuseHub
  {
    var one := Some(Block(true, first));
    var two := Some(Block(true, second));
    var key := Text(true, false, [one, two]);
    var anchors := Text(true, false, [one]);
    var hub := Some(SecretView(true, Some(anchors), None, false));
    assert one in anchors.blocks && two in key.blocks;
    assert first in Ders(anchors) && second in Ders(key) && second !in Ders(anchors);
    assert Copies(sha, None, hub) == [CopyOf(sha, hub, true).value];
    UnforcedDecision(Some(sha(first)), Copies(sha, None, hub));
  }

  // ---- What each decision means ----

  /** The certificate a view offers as its identity. */
  function Offered(view: SecretView): Text {
    if view.tlsCrt.Some? && view.tlsCrt.value.utf8 then view.tlsCrt.value else NO_TEXT
  }

  /** From this CA for this site, or outside its validity and still for this site. */
  predicate Genuine(verify: Verifier, names: Namer, view: SecretView, ca: Text, site: string) {
    var checked := verify(ca, Offered(view), site);
    checked.Ok? || (checked == Err(NotCurrentlyValid) && names(Offered(view), site))
  }

  /**
   An identity is kept exactly when an authority wrote it, it is genuine and its key is there; refused
   exactly when an authority wrote it and it is not genuine; and replaced in every other case.
   */
  lemma IdentityExactly(verify: Verifier, names: Namer, view: SecretView, ca: Text, site: string, force: bool)
    ensures var action := IdentityAction(verify, names, Some(view), ca, site, force);
            var binding := view.authoritative && !force;
            && (action == KeepIdentity <==> binding && Genuine(verify, names, view, ca, site) && view.keyMatches)
            && (action == RefuseIdentity <==> binding && !Genuine(verify, names, view, ca, site))
            && (action == Issue(true) <==>
                  !binding || (Genuine(verify, names, view, ca, site) && !view.keyMatches))
    ensures IdentityAction(verify, names, None, ca, site, force) == Issue(force)
  {
  }

  /** The CA text can be read in full and every certificate in it is one of the view's. */
  predicate AllWithin(ca: Text, view: SecretView) {
    && view.caCrt.Some? && view.caCrt.value.utf8 && !view.caCrt.value.tooLarge && !ca.tooLarge
    && None !in ca.blocks && None !in view.caCrt.value.blocks
    && (exists b :: b in ca.blocks && b.Some? && b.value.certificate)
    && (forall b | b in ca.blocks && b.Some? && b.value.certificate ::
          exists c :: c in view.caCrt.value.blocks && c.Some? && c.value.certificate && c.value.der == b.value.der)
  }

  lemma WithinIsAllWithin(ca: Text, view: SecretView)
    requires view.caCrt.Some? && view.caCrt.value.utf8
    ensures BundleWithin(ca, view.caCrt.value) == Ok(true) <==> AllWithin(ca, view)
  {
    var anchors := view.caCrt.value;
    if AllWithin(ca, view) {
      forall der | der in Ders(ca)
        ensures der in Ders(anchors)
      {
        var b :| b in ca.blocks && b.Some? && b.value.certificate && b.value.der == der;
        var c :| c in anchors.blocks && c.Some? && c.value.certificate && c.value.der == b.value.der;
        assert c.value.der in Ders(anchors);
      }
      var b :| b in ca.blocks && b.Some? && b.value.certificate;
      assert b.value.der in Ders(ca);
    }
    if BundleWithin(ca, anchors) == Ok(true) {
      forall b | b in ca.blocks && b.Some? && b.value.certificate
        ensures exists c :: c in anchors.blocks && c.Some? && c.value.certificate && c.value.der == b.value.der
      {
        assert b.value.der in Ders(ca) && b.value.der in Ders(anchors);
      }
      var der :| der in Ders(ca);
    }
  }

  /** The hub's CA is written over exactly when nobody with authority wrote it or a new grid is forced. */
  lemma HubExactly(view: SecretView, ca: Text, force: bool)
    ensures var action := HubCaWrite(Some(view), ca, force);
            && (action == WriteHub <==> !view.authoritative || force)
            && (action == KeepHub <==> view.authoritative && !force && AllWithin(ca, view))
    ensures HubCaWrite(None, ca, force) == WriteHub
  {
    if view.caCrt.Some? && view.caCrt.value.utf8 {
      WithinIsAllWithin(ca, view);
    }
  }

  /** The view's CA can be read and one of its certificates has the fingerprint. */
  ghost predicate Trusts(sha: Sha, view: SecretView, fingerprint: Fingerprint) {
    && view.caCrt.Some? && view.caCrt.value.utf8 && !view.caCrt.value.tooLarge && None !in view.caCrt.value.blocks
    && exists b :: b in view.caCrt.value.blocks && b.Some? && b.value.certificate && sha(b.value.der) == fingerprint
  }

  lemma CopyTrusts(sha: Sha, view: SecretView, hub: bool, fingerprint: Fingerprint)
    requires hub ==> view.authoritative
    ensures CopyOf(sha, Some(view), hub).Some?
    ensures var copy := CopyOf(sha, Some(view), hub).value;
            copy.Holds? && fingerprint in copy.fingerprints <==> Trusts(sha, view, fingerprint)
  {
    if view.caCrt.Some? && Trusts(sha, view, fingerprint) {
      var b :| b in view.caCrt.value.blocks && b.Some? && b.value.certificate && sha(b.value.der) == fingerprint;
      assert b.value.der in Ders(view.caCrt.value);
    }
  }

  predicate Binding(view: Option<SecretView>) {
    view.Some? && view.value.authoritative
  }

  /**
   What the plan is. It loads exactly when no new grid is forced, the key's certificate can be read, every
   bundle and every hub CA an authority wrote trusts it, and an identity an authority wrote is genuine. It
   mints exactly when a new grid is forced, or nothing an authority wrote is there. Placeholders never count.
   */
  lemma PlanExactly(
    sha: Sha, verify: Verifier, names: Namer, force: bool, site: string,
    key: Option<Text>, bundle: Option<SecretView>, hub: Option<SecretView>, identity: Option<SecretView>)
    ensures var plan := PlanCa(sha, verify, names, force, site, key, bundle, hub, identity);
            && (plan == Ok(LoadCa) <==>
                  && !force && key.Some? && CanonicalFingerprint(sha, key.value).Ok?
                  && var fingerprint := CanonicalFingerprint(sha, key.value).value;
                     && (bundle.Some? ==> Trusts(sha, bundle.value, fingerprint))
                     && (Binding(hub) ==> Trusts(sha, hub.value, fingerprint))
                     && (Binding(identity) ==> Genuine(verify, names, identity.value, key.value, site)))
            && (plan == Ok(MintCa) <==>
                  force || (key.None? && bundle.None? && !Binding(hub) && !Binding(identity)))
  {
    var copies := Copies(sha, bundle, hub);
    if identity.Some? && key.Some? {
      IdentityExactly(verify, names, identity.value, key.value, site, false);
    }
    assert copies == [] <==> bundle.None? && !Binding(hub);
    if !force && (key.None? || CanonicalFingerprint(sha, key.value).Ok?) {
      var fingerprint := if key.Some? then Some(CanonicalFingerprint(sha, key.value).value) else None;
      UnforcedDecision(fingerprint, copies);
      if key.Some? {
        CopiesTrust(sha, bundle, hub, fingerprint.value);
      }
    }
  }

  lemma CopiesTrust(sha: Sha, bundle: Option<SecretView>, hub: Option<SecretView>, fingerprint: Fingerprint)
    ensures AllHold(Copies(sha, bundle, hub), fingerprint) <==>
            && (bundle.Some? ==> Trusts(sha, bundle.value, fingerprint))
            && (Binding(hub) ==> Trusts(sha, hub.value, fingerprint))
  {
    var copies := Copies(sha, bundle, hub);
    if bundle.Some? {
      CopyTrusts(sha, bundle.value, false, fingerprint);
      assert copies[0] == CopyOf(sha, bundle, false).value && copies[0] in copies;
    }
    if Binding(hub) {
      CopyTrusts(sha, hub.value, true, fingerprint);
      assert copies[|copies| - 1] == CopyOf(sha, hub, true).value && copies[|copies| - 1] in copies;
    }
    assert forall copy | copy in copies ::
        || (bundle.Some? && copy == CopyOf(sha, bundle, false).value)
        || (Binding(hub) && copy == CopyOf(sha, hub, true).value);
  }
}
