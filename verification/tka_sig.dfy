// Node-key signatures: how a node key is authorised by a chain of rotations
// around a signature made by a trusted key (tka/sig.go), and what happens to
// that chain over any number of key rotations.
module NodeKeySig {
  import opened Common
  import opened TkaTypes

  datatype SigKind = SigInvalid | SigDirect | SigRotation | SigCredential | SigUnknown(n: nat)

  datatype NKS = NKS(
    kind: SigKind,
    pubkey: bytes,
    keyID: bytes,
    signature: bytes,
    nested: Option<NKS>,
    wrapping: bytes)

  // The libraries the signatures rest on.
  //   digest   BLAKE2s of the CBOR encoding
  //   encode, decode   the CBOR codec
  //   public, sign, verify   ed25519
  //   verifyConsensus   the ed25519 check used for authority keys
  datatype Crypto = Crypto(
    digest: NKS -> bytes,
    encode: NKS -> bytes,
    decode: bytes -> Option<NKS>,
    public: bytes -> bytes,
    sign: (bytes, bytes) -> bytes,
    verify: (bytes, bytes, bytes) -> bool,
    verifyConsensus: (bytes, bytes, bytes) -> bool)

  const MaxNestedLevels := 16
  const MaxPrevKeys := 15
  const PublicKeySize := 32

  // How many CBOR maps are nested in one another.
  function Levels(s: NKS): (n: nat)
    ensures n >= 1
  {
    if s.nested.Some? then 1 + Levels(s.nested.value) else 1
  }

  // What is assumed of the libraries: a signature made with a private key
  // verifies under its public half, and the codec round-trips exactly the
  // values within the decoder's nesting limit.
  ghost predicate Lawful(c: Crypto) {
    && (forall priv, m :: c.verify(c.public(priv), m, c.sign(priv, m)))
    && (forall priv :: |c.public(priv)| == PublicKeySize)
    && (forall s :: c.decode(c.encode(s)) == if Levels(s) <= MaxNestedLevels then Some(s) else None)
  }

  type NodeKey = k: bytes | |k| == 32 witness seq(32, i => 0)

  const NodePrefix: bytes := [0x6e, 0x70]

  function MarshalNode(k: NodeKey): bytes { NodePrefix + k }

  function UnmarshalNode(b: bytes): (r: Option<NodeKey>)
    ensures r.Some? ==> MarshalNode(r.value) == b
    ensures r.None? ==> forall k: NodeKey :: MarshalNode(k) != b
  {
    if NodePrefix <= b && |b| == 34 then Some(b[2..]) else None
  }

  function SigHash(c: Crypto, s: NKS): bytes { c.digest(s.(signature := [])) }

  // ---- The recursive queries ----

  function WrappingPublic(s: NKS): Option<bytes> {
    if |s.wrapping| > 0 then Some(s.wrapping)
    else if s.kind == SigRotation then
      if s.nested.None? then None else WrappingPublic(s.nested.value)
    else None
  }

  datatype SigError =
    | NoKeyID | MissingNested | UnhandledKind | WrongNodeKey | MissingRotationKey | BadRotationKeyLength
    | BadSignature | BadNestedPubkey | LeafNests | BadKeyLength | UnhandledKeyKind | DecodeError
    | CredentialAlone | KeyUnknownToAuthority | NotACredential

  function AuthorizingKeyID(s: NKS): Result<KeyID, SigError> {
    match s.kind
    case SigDirect | SigCredential => if |s.keyID| == 0 then Err(NoKeyID) else Ok(s.keyID)
    case SigRotation => if s.nested.None? then Err(MissingNested) else AuthorizingKeyID(s.nested.value)
    case _ => Err(UnhandledKind)
  }

  function VerifySignature(c: Crypto, s: NKS, nodeKey: NodeKey, vk: Key): Result<(), SigError> {
    if s.kind != SigCredential && MarshalNode(nodeKey) != s.pubkey then Err(WrongNodeKey)
    else match s.kind
      case SigRotation =>
        if s.nested.None? then Err(MissingNested)
        else
          var inner := s.nested.value;
          var w := WrappingPublic(inner);
          if w.None? then Err(MissingRotationKey)
          else if |w.value| != PublicKeySize then Err(BadRotationKeyLength)
          else if !c.verify(w.value, SigHash(c, s), s.signature) then Err(BadSignature)
          else if inner.kind == SigCredential then VerifySignature(c, inner, seq(32, i => 0), vk)
          else
            var k := UnmarshalNode(inner.pubkey);
            if k.None? then Err(BadNestedPubkey) else VerifySignature(c, inner, k.value, vk)
      case SigDirect | SigCredential =>
        if s.nested.Some? then Err(LeafNests)
        else if vk.kind != Key25519 then Err(UnhandledKeyKind)
        else if |vk.public| != PublicKeySize then Err(BadKeyLength)
        else if c.verifyConsensus(vk.public, SigHash(c, s), s.signature) then Ok(())
        else Err(BadSignature)
      case _ => Err(UnhandledKind)
  }

  // ---- What an accepted signature is, said without recursion ----

  // The signature and everything nested in it through rotations, outermost first.
  function Layers(s: NKS): (ls: seq<NKS>)
    ensures |ls| >= 1 && ls[0] == s
  {
    [s] + if s.kind == SigRotation && s.nested.Some? then Layers(s.nested.value) else []
  }

  // Layer i is signed by the rotation key that layer j declares, with no key declared between.
  ghost predicate SignedBy(c: Crypto, ls: seq<NKS>, i: nat, j: nat)
    requires i < |ls|
  {
    && i < j < |ls|
    && (forall k :: i < k < j ==> ls[k].wrapping == [])
    && |ls[j].wrapping| == PublicKeySize
    && c.verify(ls[j].wrapping, SigHash(c, ls[i]), ls[i].signature)
  }

  // Layer i is signed by the nearest rotation key declared inside it.
  ghost predicate SignedByNearest(c: Crypto, ls: seq<NKS>, i: nat)
    requires i < |ls|
  {
    exists j: nat :: SignedBy(c, ls, i, j)
  }

  ghost predicate AuthenticLeaf(c: Crypto, leaf: NKS, vk: Key) {
    && (leaf.kind == SigDirect || leaf.kind == SigCredential)
    && leaf.nested.None?
    && vk.kind == Key25519
    && |vk.public| == PublicKeySize
    && c.verifyConsensus(vk.public, SigHash(c, leaf), leaf.signature)
  }

  ghost predicate LayerSigned(c: Crypto, ls: seq<NKS>, i: nat)
    requires i < |ls|
  {
    ls[i].kind == SigRotation && SignedByNearest(c, ls, i)
  }

  // Every layer but the innermost is a rotation signed by the nearest key.
  ghost predicate RotationsSigned(c: Crypto, ls: seq<NKS>) {
    forall i :: 0 <= i < |ls| - 1 ==> LayerSigned(c, ls, i)
  }

  ghost predicate NamesNode(l: NKS) { l.kind == SigCredential || UnmarshalNode(l.pubkey).Some? }

  ghost predicate AuthenticChain(c: Crypto, ls: seq<NKS>, nodeKey: NodeKey, vk: Key)
    requires |ls| >= 1
  {
    && AuthenticLeaf(c, Last(ls), vk)
    && RotationsSigned(c, ls)
    && (ls[0].kind == SigCredential || ls[0].pubkey == MarshalNode(nodeKey))
    && (forall i :: 1 <= i < |ls| ==> NamesNode(ls[i]))
  }

  // The recursive lookup finds the nearest declared key.
  lemma {:induction false} WrappingFound(s: NKS) returns (j: nat)
    ensures WrappingPublic(s).None? ==> forall k :: 0 <= k < |Layers(s)| ==> Layers(s)[k].wrapping == []
    ensures WrappingPublic(s).Some? ==>
              && j < |Layers(s)|
              && (forall k :: 0 <= k < j ==> Layers(s)[k].wrapping == [])
              && Layers(s)[j].wrapping == WrappingPublic(s).value != []
  {
    if |s.wrapping| == 0 && s.kind == SigRotation && s.nested.Some? {
      var i := WrappingFound(s.nested.value);
      j := i + 1;
    } else {
      j := 0;
    }
  }

  lemma SignedAtFront(c: Crypto, s: NKS, inner: seq<NKS>, i: nat)
    requires i < |inner| && (forall k :: 0 <= k < i ==> inner[k].wrapping == []) && inner[i].wrapping != []
    ensures SignedByNearest(c, [s] + inner, 0) <==>
            |inner[i].wrapping| == PublicKeySize && c.verify(inner[i].wrapping, SigHash(c, s), s.signature)
  {
    var ls := [s] + inner;
    assert forall k :: 0 < k < |ls| ==> ls[k] == inner[k - 1];
    if SignedByNearest(c, ls, 0) {
      var j: nat :| SignedBy(c, ls, 0, j);
      assert ls[i + 1] == inner[i];
      assert j == i + 1;
    }
    if |inner[i].wrapping| == PublicKeySize && c.verify(inner[i].wrapping, SigHash(c, s), s.signature) {
      assert SignedBy(c, ls, 0, i + 1);
    }
  }

  // The outermost layer's signature is checked with the nearest key.
  lemma OuterSignedByNearest(c: Crypto, s: NKS)
    requires s.kind == SigRotation && s.nested.Some?
    ensures SignedByNearest(c, Layers(s), 0) <==>
              var w := WrappingPublic(s.nested.value);
              w.Some? && |w.value| == PublicKeySize && c.verify(w.value, SigHash(c, s), s.signature)
  {
    var inner := Layers(s.nested.value);
    assert Layers(s) == [s] + inner;
    var i := WrappingFound(s.nested.value);
    if WrappingPublic(s.nested.value).Some? {
      SignedAtFront(c, s, inner, i);
    } else {
      assert forall j :: 0 < j < |inner| + 1 ==> Layers(s)[j] == inner[j - 1];
    }
  }

  lemma SignedByShifted(c: Crypto, x: NKS, ls: seq<NKS>, i: nat, j: nat)
    requires i < |ls|
    ensures SignedBy(c, [x] + ls, i + 1, j + 1) <==> SignedBy(c, ls, i, j)
  {
    var xs := [x] + ls;
    assert xs[i + 1] == ls[i];
    if i < j < |ls| {
      assert xs[j + 1] == ls[j];
      assert forall k :: i < k < j ==> xs[k + 1] == ls[k];
      assert forall k :: i + 1 < k < j + 1 ==> xs[k] == ls[k - 1];
    }
  }

  lemma SignedByShift(c: Crypto, x: NKS, ls: seq<NKS>, i: nat)
    requires i < |ls|
    ensures SignedByNearest(c, [x] + ls, i + 1) <==> SignedByNearest(c, ls, i)
  {
    if SignedByNearest(c, [x] + ls, i + 1) {
      var j: nat :| SignedBy(c, [x] + ls, i + 1, j);
      SignedByShifted(c, x, ls, i, j - 1);
    }
    if SignedByNearest(c, ls, i) {
      var j: nat :| SignedBy(c, ls, i, j);
      SignedByShifted(c, x, ls, i, j);
    }
  }

  lemma RotationsSignedCons(c: Crypto, s: NKS, inner: seq<NKS>)
    requires inner != []
    ensures RotationsSigned(c, [s] + inner) <==> LayerSigned(c, [s] + inner, 0) && RotationsSigned(c, inner)
  {
    var ls := [s] + inner;
    forall i | 0 <= i < |inner|
      ensures LayerSigned(c, ls, i + 1) <==> LayerSigned(c, inner, i)
    {
      SignedByShift(c, s, inner, i);
    }
    if LayerSigned(c, ls, 0) && RotationsSigned(c, inner) {
      forall i | 0 <= i < |ls| - 1
        ensures LayerSigned(c, ls, i)
      {
        assert i > 0 ==> LayerSigned(c, inner, i - 1) && LayerSigned(c, ls, i - 1 + 1);
      }
    }
    if RotationsSigned(c, ls) {
      forall i | 0 <= i < |inner| - 1
        ensures LayerSigned(c, inner, i)
      {
        assert LayerSigned(c, ls, i + 1);
      }
    }
  }

  lemma NamesNodeCons(s: NKS, inner: seq<NKS>)
    requires inner != []
    ensures var ls := [s] + inner;
            (forall i :: 1 <= i < |ls| ==> NamesNode(ls[i])) <==>
            NamesNode(inner[0]) && forall i :: 1 <= i < |inner| ==> NamesNode(inner[i])
  {
    var ls := [s] + inner;
    assert forall i :: 0 <= i < |inner| ==> ls[i + 1] == inner[i];
    assert forall i :: 1 <= i < |ls| ==> ls[i] == inner[i - 1];
  }

  // An authentic chain is an authentic inner chain below a well-signed outer layer.
  lemma AuthenticChainStep(c: Crypto, s: NKS, nodeKey: NodeKey, k: NodeKey, vk: Key)
    requires s.kind == SigRotation && s.nested.Some?
    requires s.nested.value.kind != SigCredential && UnmarshalNode(s.nested.value.pubkey).Some? ==>
               k == UnmarshalNode(s.nested.value.pubkey).value
    ensures AuthenticChain(c, Layers(s), nodeKey, vk) <==>
              && s.pubkey == MarshalNode(nodeKey)
              && SignedByNearest(c, Layers(s), 0)
              && NamesNode(s.nested.value)
              && AuthenticChain(c, Layers(s.nested.value), k, vk)
  {
    var ls, inner := Layers(s), Layers(s.nested.value);
    assert ls == [s] + inner && Last(ls) == Last(inner) && inner[0] == s.nested.value;
    RotationsSignedCons(c, s, inner);
    NamesNodeCons(s, inner);
  }

  // verifySignature accepts exactly the authentic chains.
  lemma {:induction false} VerifyAcceptsExactly(c: Crypto, s: NKS, nodeKey: NodeKey, vk: Key)
    ensures VerifySignature(c, s, nodeKey, vk).Ok? <==> AuthenticChain(c, Layers(s), nodeKey, vk)
  {
    if s.kind == SigRotation && s.nested.Some? {
      var inner := s.nested.value;
      var k: NodeKey := if inner.kind == SigCredential || UnmarshalNode(inner.pubkey).None? then seq(32, i => 0)
                        else UnmarshalNode(inner.pubkey).value;
      VerifyAcceptsExactly(c, inner, k, vk);
      OuterSignedByNearest(c, s);
      AuthenticChainStep(c, s, nodeKey, k, vk);
    }
  }

  // ---- Rotation details ----

  datatype RotationDetails = RotationDetails(prevNodeKeys: seq<NodeKey>, initialSig: Option<NKS>)

  // The layers inside a signature.
  function Inner(nested: Option<NKS>): seq<NKS> {
    if nested.Some? then Layers(nested.value) else []
  }

  // The layer a walk inward ends at: the first one that is no rotation.
  function End(nested: Option<NKS>): Option<NKS> {
    if Inner(nested) != [] && Last(Inner(nested)).kind != SigRotation then Some(Last(Inner(nested))) else None
  }

  // The node keys of the layers that name one; None when one is malformed.
  function NodeKeysOf(ls: seq<NKS>): Option<seq<NodeKey>> {
    if ls == [] then Some([])
    else if ls[0].pubkey == [] then NodeKeysOf(ls[1..])
    else match (UnmarshalNode(ls[0].pubkey), NodeKeysOf(ls[1..]))
      case (Some(k), Some(ks)) => Some([k] + ks)
      case _ => None
  }

  function Prepend(ks: seq<NodeKey>, r: Option<seq<NodeKey>>): Option<seq<NodeKey>> {
    if r.Some? then Some(ks + r.value) else None
  }

  // One step of a walk inward.
  lemma WalkStep(nested: Option<NKS>, rest: Option<NKS>)
    requires nested.Some? && rest == if nested.value.kind == SigRotation then nested.value.nested else None
    ensures Inner(nested) == [nested.value] + Inner(rest)
    ensures Inner(nested)[1..] == Inner(rest)
    ensures End(nested) == if nested.value.kind == SigRotation then End(rest) else nested
  {
  }

  function DetailsOf(s: NKS): Result<Option<RotationDetails>, SigError> {
    if s.kind != SigRotation then Ok(None)
    else match NodeKeysOf(Inner(s.nested))
      case None => Err(BadNestedPubkey)
      case Some(ks) => Ok(Some(RotationDetails(ks, End(s.nested))))
  }

  method RotationDetailsLoop(s: NKS) returns (r: Result<Option<RotationDetails>, SigError>)
    ensures r == DetailsOf(s)
  {
    if s.kind != SigRotation {
      return Ok(None);
    }
    var prev: seq<NodeKey> := [];
    var nested := s.nested;
    ghost var rest := nested; // what is still to be read
    PrependNone(NodeKeysOf(Inner(rest)));
    while nested.Some?
      invariant rest == nested && End(nested) == End(s.nested)
      invariant NodeKeysOf(Inner(s.nested)) == Prepend(prev, NodeKeysOf(Inner(rest)))
      decreases nested
    {
      rest := if nested.value.kind == SigRotation then nested.value.nested else None;
      WalkStep(nested, rest);
      if |nested.value.pubkey| > 0 {
        var k := UnmarshalNode(nested.value.pubkey);
        if k.None? {
          return Err(BadNestedPubkey);
        }
        assert forall ks: seq<NodeKey> :: prev + ([k.value] + ks) == (prev + [k.value]) + ks;
        prev := prev + [k.value];
      }
      if nested.value.kind != SigRotation {
        break;
      }
      nested := nested.value.nested;
    }
    assert NodeKeysOf(Inner(rest)) == Some([]) && prev + [] == prev;
    r := Ok(Some(RotationDetails(prev, nested)));
  }

  lemma PrependNone(r: Option<seq<NodeKey>>)
    ensures Prepend([], r) == r
  {
    if r.Some? { assert [] + r.value == r.value; }
  }

  // ---- Rotating a node key ----

  // A rotation signature for pubkey around a nested one.
  function Wrap(c: Crypto, priv: bytes, pubkey: bytes, nested: Option<NKS>): NKS {
    var s := NKS(SigRotation, pubkey, [], [], nested, []);
    s.(signature := c.sign(priv, SigHash(c, s)))
  }

  // Rotations for each of keys, newest outermost, around inner.
  function Chain(c: Crypto, priv: bytes, keys: seq<bytes>, inner: Option<NKS>): (r: Option<NKS>)
    ensures r.Some? <==> keys != [] || inner.Some?
  {
    if keys == [] then inner else Some(Wrap(c, priv, keys[0], Chain(c, priv, keys[1..], inner)))
  }

  function NonEmptyPubkeys(ls: seq<NKS>): seq<bytes> {
    if ls == [] then []
    else (if ls[0].pubkey == [] then [] else [ls[0].pubkey]) + NonEmptyPubkeys(ls[1..])
  }

  // maybeTrimRotationSignatureChain as a function.
  function Trim(c: Crypto, sig: NKS, priv: bytes): NKS {
    var prev := [sig.pubkey] + NonEmptyPubkeys(Inner(sig.nested));
    if sig.kind != SigRotation || |prev| <= MaxPrevKeys then sig
    else Chain(c, priv, prev[..MaxPrevKeys - 1], End(sig.nested)).value
  }

  method MaybeTrimRotationSignatureChain(c: Crypto, sig: NKS, priv: bytes) returns (r: NKS)
    ensures r == Trim(c, sig, priv)
  {
    if sig.kind != SigRotation {
      return sig;
    }
    var prev, nested := CollectPrevPubkeys(sig);
    if |prev| <= MaxPrevKeys {
      return sig;
    }
    var result := nested;
    var i := MaxPrevKeys - 2;
    while i >= 0
      invariant -1 <= i <= MaxPrevKeys - 2
      invariant result == Chain(c, priv, prev[i + 1..MaxPrevKeys - 1], nested)
    {
      assert prev[i..MaxPrevKeys - 1][1..] == prev[i + 1..MaxPrevKeys - 1];
      result := Some(Wrap(c, priv, prev[i], result));
      i := i - 1;
    }
    assert prev[0..MaxPrevKeys - 1] == prev[..MaxPrevKeys - 1];
    r := result.value;
  }

  lemma CollectStep(all: seq<bytes>, prev: seq<bytes>, nested: Option<NKS>, rest: Option<NKS>)
    requires nested.Some? && Inner(nested) == [nested.value] + Inner(rest) && all == prev + NonEmptyPubkeys(Inner(nested))
    ensures all == (if nested.value.pubkey == [] then prev else prev + [nested.value.pubkey]) + NonEmptyPubkeys(Inner(rest))
  {
    var tail := NonEmptyPubkeys(Inner(rest));
    assert Inner(nested)[1..] == Inner(rest);
    assert nested.value.pubkey != [] ==> prev + ([nested.value.pubkey] + tail) == prev + [nested.value.pubkey] + tail;
    assert [] + tail == tail;
  }

  // The first loop of the trimmer: every node key named, newest first, and where the walk ends.
  method CollectPrevPubkeys(sig: NKS) returns (prev: seq<bytes>, nested: Option<NKS>)
    requires sig.kind == SigRotation
    ensures prev == [sig.pubkey] + NonEmptyPubkeys(Inner(sig.nested))
    ensures nested == End(sig.nested)
  {
    prev := [sig.pubkey];
    nested := sig.nested;
    ghost var all, rest := [sig.pubkey] + NonEmptyPubkeys(Inner(sig.nested)), nested;
    while nested.Some?
      invariant rest == nested && End(nested) == End(sig.nested)
      invariant all == prev + NonEmptyPubkeys(Inner(rest))
      decreases nested
    {
      rest := if nested.value.kind == SigRotation then nested.value.nested else None;
      WalkStep(nested, rest);
      CollectStep(all, prev, nested, rest);
      if |nested.value.pubkey| > 0 {
        prev := prev + [nested.value.pubkey];
      }
      if nested.value.kind != SigRotation {
        break;
      }
      nested := nested.value.nested;
    }
    assert NonEmptyPubkeys(Inner(rest)) == [];
  }

  function ResignNKS(c: Crypto, priv: bytes, nodeKey: NodeKey, oldNKS: bytes): Result<bytes, SigError> {
    match c.decode(oldNKS)
    case None => Err(DecodeError)
    case Some(sig) =>
      if MarshalNode(nodeKey) == sig.pubkey then Ok(oldNKS)
      else Ok(c.encode(Wrap(c, priv, MarshalNode(nodeKey), Some(Trim(c, sig, priv)))))
  }

  function SignByCredential(c: Crypto, priv: bytes, wrapped: NKS, nodeKey: NodeKey): Result<bytes, SigError> {
    if wrapped.kind != SigCredential then Err(NotACredential)
    else Ok(c.encode(Wrap(c, priv, MarshalNode(nodeKey), Some(wrapped))))
  }

  // Authority.NodeKeyAuthorizedWithDetails, for an authority trusting these keys.
  function NodeKeyAuthorized(c: Crypto, trusted: seq<Key>, nodeKey: NodeKey, sig: bytes)
    : Result<Option<RotationDetails>, SigError>
  {
    match c.decode(sig)
    case None => Err(DecodeError)
    case Some(s) =>
      if s.kind == SigCredential then Err(CredentialAlone)
      else match AuthorizingKeyID(s)
        case Err(e) => Err(e)
        case Ok(id) =>
          match GetKey(trusted, id)
          case Found(key) =>
            var v := VerifySignature(c, s, nodeKey, key);
            if v.Ok? then DetailsOf(s) else Err(v.error)
          case _ => Err(KeyUnknownToAuthority)
  }

  // ---- Runs of rotations ----

  // One rotation: the private key that signs it and the node key it is for.  A
  // node signs with its own tailnet-lock key, except that the first signature of
  // a node joining with a wrapped auth key is made with the auth key's.
  datatype Turn = Turn(priv: bytes, key: NodeKey)

  // The signature after these turns, oldest first.
  function Rotate(c: Crypto, start: bytes, turns: seq<Turn>): Result<bytes, SigError> {
    if turns == [] then Ok(start)
    else match Rotate(c, start, turns[..|turns| - 1])
      case Err(e) => Err(e)
      case Ok(oldNKS) => ResignNKS(c, Last(turns).priv, Last(turns).key, oldNKS)
  }

  // The keys that were really rotated to, newest first: rotating to the
  // current key changes nothing.
  function History(root: bytes, turns: seq<Turn>): seq<bytes> {
    if turns == [] then []
    else
      var h := History(root, turns[..|turns| - 1]);
      var k := MarshalNode(Last(turns).key);
      if k == (if h == [] then root else h[0]) then h else [k] + h
  }

  function Newest(h: seq<bytes>): seq<bytes> { h[..Min(|h|, MaxPrevKeys)] }

  ghost predicate IsLeaf(leaf: NKS) {
    leaf.nested.None? && (leaf.kind == SigDirect || leaf.kind == SigCredential)
  }

  ghost predicate AreNodeKeys(keys: seq<bytes>) {
    forall i :: 0 <= i < |keys| ==> UnmarshalNode(keys[i]).Some?
  }

  lemma {:induction false} HistoryAreNodeKeys(root: bytes, turns: seq<Turn>)
    ensures AreNodeKeys(History(root, turns))
    ensures turns != [] ==> (if History(root, turns) == [] then root else History(root, turns)[0]) == MarshalNode(Last(turns).key)
  {
    if turns != [] {
      HistoryAreNodeKeys(root, turns[..|turns| - 1]);
      assert UnmarshalNode(MarshalNode(Last(turns).key)).Some?;
    }
  }

  // ---- Rotations around a leaf, each with its own signer ----

  // One layer: the node key it names and the private key that signed it.
  datatype Mark = Mark(key: bytes, priv: bytes)

  function KeysOf(marks: seq<Mark>): (keys: seq<bytes>)
    ensures |keys| == |marks| && forall i :: 0 <= i < |marks| ==> keys[i] == marks[i].key
  {
    if marks == [] then [] else [marks[0].key] + KeysOf(marks[1..])
  }

  // The same keys, signed anew.
  function SignedAnew(priv: bytes, keys: seq<bytes>): (marks: seq<Mark>)
    ensures KeysOf(marks) == keys && forall m :: m in marks ==> m.priv == priv
  {
    if keys == [] then [] else
      var rest := SignedAnew(priv, keys[1..]);
      assert ([Mark(keys[0], priv)] + rest)[1..] == rest;
      [Mark(keys[0], priv)] + rest
  }

  function Pile(c: Crypto, marks: seq<Mark>, leaf: NKS): NKS {
    if marks == [] then leaf else Wrap(c, marks[0].priv, marks[0].key, Some(Pile(c, marks[1..], leaf)))
  }

  lemma {:induction false} ChainIsPile(c: Crypto, priv: bytes, keys: seq<bytes>, leaf: NKS)
    ensures Chain(c, priv, keys, Some(leaf)) == Some(Pile(c, SignedAnew(priv, keys), leaf))
  {
    if keys != [] {
      ChainIsPile(c, priv, keys[1..], leaf);
      assert SignedAnew(priv, keys)[1..] == SignedAnew(priv, keys[1..]);
    }
  }

  // What a pile of rotations around a leaf looks like from outside.
  lemma {:induction false} PileShape(c: Crypto, marks: seq<Mark>, leaf: NKS)
    requires IsLeaf(leaf)
    ensures var s := Pile(c, marks, leaf);
            && |Layers(s)| == |marks| + 1
            && (forall i :: 0 <= i < |marks| ==> Layers(s)[i].pubkey == marks[i].key && Layers(s)[i].kind == SigRotation)
            && Last(Layers(s)) == leaf
            && Levels(s) == |marks| + 1
            && WrappingPublic(s) == WrappingPublic(leaf)
            && AuthorizingKeyID(s) == AuthorizingKeyID(leaf)
            && s.pubkey == (if marks == [] then leaf.pubkey else marks[0].key)
            && s.kind == (if marks == [] then leaf.kind else SigRotation)
  {
    if marks != [] {
      PileShape(c, marks[1..], leaf);
      assert Layers(Pile(c, marks, leaf)) == [Pile(c, marks, leaf)] + Layers(Pile(c, marks[1..], leaf));
    }
  }

  lemma {:induction false} PilePubkeys(c: Crypto, marks: seq<Mark>, leaf: NKS)
    requires IsLeaf(leaf) && AreNodeKeys(KeysOf(marks))
    ensures NonEmptyPubkeys(Layers(Pile(c, marks, leaf))) == KeysOf(marks) + if leaf.pubkey == [] then [] else [leaf.pubkey]
  {
    if marks == [] {
      assert Layers(leaf) == [leaf];
    } else {
      assert KeysOf(marks) == [marks[0].key] + KeysOf(marks[1..]);
      assert AreNodeKeys(KeysOf(marks[1..])) by { assert forall i :: 0 <= i < |marks| - 1 ==> KeysOf(marks[1..])[i] == KeysOf(marks)[i + 1]; }
      PilePubkeys(c, marks[1..], leaf);
      assert Layers(Pile(c, marks, leaf))[1..] == Layers(Pile(c, marks[1..], leaf));
      assert UnmarshalNode(KeysOf(marks)[0]).Some? && marks[0].key != [];
    }
  }

  // The number of node keys a pile names.
  function Named(root: bytes, marks: seq<Mark>): nat { |marks| + if root == [] then 0 else 1 }

  // What is left of a pile once priv has trimmed it: everything, or the 14
  // newest rotations signed anew.
  function Trimmed(root: bytes, marks: seq<Mark>, priv: bytes): seq<Mark> {
    if Named(root, marks) > MaxPrevKeys then SignedAnew(priv, KeysOf(marks)[..MaxPrevKeys - 1]) else marks
  }

  // Trimming a pile keeps its 14 newest rotations and its leaf untouched, and
  // does so exactly when it names more than 15 node keys.
  lemma TrimPile(c: Crypto, marks: seq<Mark>, leaf: NKS, priv: bytes)
    requires IsLeaf(leaf) && AreNodeKeys(KeysOf(marks))
    ensures Trim(c, Pile(c, marks, leaf), priv) == Pile(c, Trimmed(leaf.pubkey, marks, priv), leaf)
  {
    PileShape(c, marks, leaf);
    if marks != [] {
      var s, keys := Pile(c, marks, leaf), KeysOf(marks);
      PileInside(c, marks, leaf);
      var tail := if leaf.pubkey == [] then [] else [leaf.pubkey];
      TrimNamed(c, priv, s, keys, tail);
      if Named(leaf.pubkey, marks) > MaxPrevKeys { ChainIsPile(c, priv, keys[..MaxPrevKeys - 1], leaf); }
    }
  }

  lemma PileInside(c: Crypto, marks: seq<Mark>, leaf: NKS)
    requires IsLeaf(leaf) && AreNodeKeys(KeysOf(marks)) && marks != []
    ensures var s := Pile(c, marks, leaf);
            && End(s.nested) == Some(leaf)
            && NonEmptyPubkeys(Inner(s.nested)) == KeysOf(marks)[1..] + if leaf.pubkey == [] then [] else [leaf.pubkey]
  {
    assert KeysOf(marks[1..]) == KeysOf(marks)[1..];
    PilePubkeys(c, marks[1..], leaf);
    PileShape(c, marks[1..], leaf);
  }

  lemma TrimNamed(c: Crypto, priv: bytes, s: NKS, keys: seq<bytes>, tail: seq<bytes>)
    requires s.kind == SigRotation && keys != [] && |tail| <= 1
    requires s.pubkey == keys[0] && NonEmptyPubkeys(Inner(s.nested)) == keys[1..] + tail
    ensures Trim(c, s, priv) == if |keys + tail| > MaxPrevKeys
                                then Chain(c, priv, keys[..MaxPrevKeys - 1], End(s.nested)).value else s
  {
    assert [s.pubkey] + NonEmptyPubkeys(Inner(s.nested)) == keys + tail;
    if |keys + tail| > MaxPrevKeys {
      assert (keys + tail)[..MaxPrevKeys - 1] == keys[..MaxPrevKeys - 1];
    }
  }

  // The pile after one more turn.
  function Turned(root: bytes, marks: seq<Mark>, t: Turn): seq<Mark> {
    var k := MarshalNode(t.key);
    if k == (if marks == [] then root else marks[0].key) then marks else [Mark(k, t.priv)] + Trimmed(root, marks, t.priv)
  }

  function MarksAfter(root: bytes, turns: seq<Turn>): seq<Mark> {
    if turns == [] then [] else Turned(root, MarksAfter(root, turns[..|turns| - 1]), Last(turns))
  }

  // Re-signing a pile gives the turned pile.
  ghost predicate Resigns(c: Crypto, marks: seq<Mark>, leaf: NKS, t: Turn) {
    ResignNKS(c, t.priv, t.key, c.encode(Pile(c, marks, leaf))) == Ok(c.encode(Pile(c, Turned(leaf.pubkey, marks, t), leaf)))
  }

  lemma PileDecodes(c: Crypto, marks: seq<Mark>, leaf: NKS)
    requires Lawful(c) && IsLeaf(leaf) && |marks| <= MaxPrevKeys
    ensures c.decode(c.encode(Pile(c, marks, leaf))) == Some(Pile(c, marks, leaf))
    ensures Pile(c, marks, leaf).pubkey == if marks == [] then leaf.pubkey else marks[0].key
  {
    PileShape(c, marks, leaf);
  }

  lemma TurnedPile(c: Crypto, marks: seq<Mark>, leaf: NKS, t: Turn)
    requires MarshalNode(t.key) != if marks == [] then leaf.pubkey else marks[0].key
    ensures Pile(c, Turned(leaf.pubkey, marks, t), leaf) ==
            Wrap(c, t.priv, MarshalNode(t.key), Some(Pile(c, Trimmed(leaf.pubkey, marks, t.priv), leaf)))
  {
    var k, kept := MarshalNode(t.key), Trimmed(leaf.pubkey, marks, t.priv);
    assert ([Mark(k, t.priv)] + kept)[1..] == kept;
  }

  lemma ResignDecoded(c: Crypto, marks: seq<Mark>, leaf: NKS, t: Turn)
    requires c.decode(c.encode(Pile(c, marks, leaf))) == Some(Pile(c, marks, leaf))
    requires Pile(c, marks, leaf).pubkey == if marks == [] then leaf.pubkey else marks[0].key
    requires Trim(c, Pile(c, marks, leaf), t.priv) == Pile(c, Trimmed(leaf.pubkey, marks, t.priv), leaf)
    ensures Resigns(c, marks, leaf, t)
  {
    if MarshalNode(t.key) != Pile(c, marks, leaf).pubkey {
      TurnedPile(c, marks, leaf, t);
    }
  }

  // One rotation of a pile the decoder accepts.
  lemma ResignPile(c: Crypto, marks: seq<Mark>, leaf: NKS, t: Turn)
    requires Lawful(c) && IsLeaf(leaf) && AreNodeKeys(KeysOf(marks)) && |marks| <= MaxPrevKeys
    ensures Resigns(c, marks, leaf, t)
  {
    PileDecodes(c, marks, leaf);
    TrimPile(c, marks, leaf, t.priv);
    ResignDecoded(c, marks, leaf, t);
  }

  lemma NewestGrows(h: seq<bytes>, k: bytes)
    ensures |Newest(h)| <= MaxPrevKeys && (h == [] <==> Newest(h) == []) && (h != [] ==> Newest(h)[0] == h[0])
    ensures Newest([k] + h) == [k] + if |Newest(h)| + 1 > MaxPrevKeys then Newest(h)[..MaxPrevKeys - 1] else Newest(h)
  {
  }

  lemma TurnedKeys(root: bytes, marks: seq<Mark>, t: Turn)
    ensures var k := MarshalNode(t.key);
            KeysOf(Turned(root, marks, t)) ==
            if k == (if marks == [] then root else marks[0].key) then KeysOf(marks)
            else [k] + if Named(root, marks) > MaxPrevKeys then KeysOf(marks)[..MaxPrevKeys - 1] else KeysOf(marks)
  {
    var kept := Trimmed(root, marks, t.priv);
    assert KeysOf([Mark(MarshalNode(t.key), t.priv)] + kept) == [MarshalNode(t.key)] + KeysOf(kept);
  }

  // A pile around a leaf that names a node key, after any run of rotations,
  // whoever signs each: the newest 15 rotations around the untouched leaf.
  lemma {:induction false} RotationRun(c: Crypto, leaf: NKS, turns: seq<Turn>)
    requires Lawful(c) && IsLeaf(leaf) && leaf.pubkey != []
    ensures var marks := MarksAfter(leaf.pubkey, turns);
            && Rotate(c, c.encode(leaf), turns) == Ok(c.encode(Pile(c, marks, leaf)))
            && KeysOf(marks) == Newest(History(leaf.pubkey, turns))
  {
    if turns != [] {
      var before := turns[..|turns| - 1];
      RotationRun(c, leaf, before);
      HistoryAreNodeKeys(leaf.pubkey, before);
      var h, marks := History(leaf.pubkey, before), MarksAfter(leaf.pubkey, before);
      NewestGrows(h, MarshalNode(Last(turns).key));
      ResignPile(c, marks, leaf, Last(turns));
      TurnedKeys(leaf.pubkey, marks, Last(turns));
    }
  }

  // Around a leaf that names no node key nothing is trimmed: a turn fails
  // exactly when more than fifteen rotations went before it, and otherwise adds
  // a layer for each change of key.
  lemma {:induction false} KeylessLeafRun(c: Crypto, leaf: NKS, turns: seq<Turn>)
    requires Lawful(c) && IsLeaf(leaf) && leaf.pubkey == []
    ensures var r := Rotate(c, c.encode(leaf), turns);
            && (r.Ok? <==> turns == [] || |History([], turns[..|turns| - 1])| <= MaxPrevKeys)
            && (r.Ok? ==> r.value == c.encode(Pile(c, MarksAfter([], turns), leaf)))
            && (r.Err? ==> r.error == DecodeError)
    ensures turns == [] || |History([], turns[..|turns| - 1])| <= MaxPrevKeys ==> KeysOf(MarksAfter([], turns)) == History([], turns)
  {
    if turns != [] {
      var before := turns[..|turns| - 1];
      KeylessLeafRun(c, leaf, before);
      HistoryAreNodeKeys([], before);
      HistoryOnlyGrows([], before);
      var h, marks := History([], before), MarksAfter([], before);
      PileShape(c, marks, leaf);
      if |h| <= MaxPrevKeys {
        ResignPile(c, marks, leaf, Last(turns));
        TurnedKeys([], marks, Last(turns));
      }
    }
  }

  lemma HistoryOnlyGrows(root: bytes, turns: seq<Turn>)
    ensures turns != [] ==> |History(root, turns[..|turns| - 1])| <= |History(root, turns)|
  {
  }

  // The nesting limit is kept along every run, whoever signs, exactly when the
  // leaf names a node key; otherwise, as for an auth key's credential, exactly
  // up to the fifteenth rotation.
  lemma DecodableIff(c: Crypto, leaf: NKS, turns: seq<Turn>)
    requires Lawful(c) && IsLeaf(leaf)
    ensures var r := Rotate(c, c.encode(leaf), turns);
            r.Ok? && c.decode(r.value).Some? <==> leaf.pubkey != [] || |History(leaf.pubkey, turns)| <= MaxPrevKeys
  {
    PileShape(c, MarksAfter(leaf.pubkey, turns), leaf);
    if leaf.pubkey != [] {
      RotationRun(c, leaf, turns);
    } else {
      KeylessLeafRun(c, leaf, turns);
      HistoryOnlyGrows([], turns);
    }
  }

  // A node that joins with a wrapped auth key: its first signature is made with
  // the auth key, which is the first rotation of the credential.
  lemma CredentialIsFirstRotation(c: Crypto, priv: bytes, leaf: NKS, k: NodeKey)
    requires Lawful(c) && IsLeaf(leaf) && leaf.kind == SigCredential && leaf.pubkey == []
    ensures Rotate(c, c.encode(leaf), [Turn(priv, k)]) == SignByCredential(c, priv, leaf, k)
  {
    var t := Turn(priv, k);
    ResignPile(c, [], leaf, t);
    assert [t][..0] == [] && Rotate(c, c.encode(leaf), []) == Ok(c.encode(leaf));
    assert Turned([], [], t) == [Mark(MarshalNode(k), priv)];
    assert [Mark(MarshalNode(k), priv)][1..] == [];
  }

  // The run that follows continues it.
  lemma {:induction false} RotateOn(c: Crypto, start: bytes, first: Turn, turns: seq<Turn>)
    ensures Rotate(c, start, [first] + turns) ==
            match Rotate(c, start, [first])
            case Err(e) => Err(e)
            case Ok(b) => Rotate(c, b, turns)
  {
    var all := [first] + turns;
    if turns == [] {
      assert all == [first];
    } else {
      RotateOn(c, start, first, turns[..|turns| - 1]);
      assert all[..|all| - 1] == [first] + turns[..|turns| - 1];
    }
  }

  // Joined with an auth key and then rotated with the node's own key fifteen
  // times, each time to another key, a node has a signature nobody can decode,
  // whatever the keys.
  lemma CredentialRunOverflows(c: Crypto, authPriv: bytes, ownPriv: bytes, leaf: NKS, k: NodeKey, keys: seq<NodeKey>)
    requires Lawful(c) && IsLeaf(leaf) && leaf.kind == SigCredential && leaf.pubkey == []
    requires |keys| >= MaxPrevKeys && forall i :: 0 <= i < |keys| ==> keys[i] != if i == 0 then k else keys[i - 1]
    ensures var first := SignByCredential(c, authPriv, leaf, k);
            first.Ok? && var r := Rotate(c, first.value, TurnsOf(ownPriv, keys)); !(r.Ok? && c.decode(r.value).Some?)
  {
    var t, turns := Turn(authPriv, k), TurnsOf(ownPriv, keys);
    CredentialIsFirstRotation(c, authPriv, leaf, k);
    RotateOn(c, c.encode(leaf), t, turns);
    JoinedTurnsCount(authPriv, ownPriv, k, keys);
    DecodableIff(c, leaf, [t] + turns);
  }

  lemma JoinedTurnsCount(authPriv: bytes, ownPriv: bytes, k: NodeKey, keys: seq<NodeKey>)
    requires forall i :: 0 <= i < |keys| ==> keys[i] != if i == 0 then k else keys[i - 1]
    ensures |History([], [Turn(authPriv, k)] + TurnsOf(ownPriv, keys))| == |keys| + 1
  {
    var turns := TurnsOf(ownPriv, keys);
    var all := [Turn(authPriv, k)] + turns;
    forall i | 0 <= i < |keys| ensures all[i + 1].key != all[i].key {
      assert keys[i] != if i == 0 then k else keys[i - 1];
      assert all[i + 1] == turns[i] && (i > 0 ==> all[i] == turns[i - 1]);
    }
    EveryTurnCounts(all);
  }

  function TurnsOf(priv: bytes, keys: seq<NodeKey>): (turns: seq<Turn>)
    ensures |turns| == |keys| && forall i :: 0 <= i < |keys| ==> turns[i] == Turn(priv, keys[i])
  {
    if keys == [] then [] else [Turn(priv, keys[0])] + TurnsOf(priv, keys[1..])
  }

  lemma {:induction false} EveryTurnCounts(turns: seq<Turn>)
    requires forall i :: 0 <= i < |turns| - 1 ==> turns[i + 1].key != turns[i].key
    ensures |History([], turns)| == |turns|
  {
    if turns != [] {
      var before := turns[..|turns| - 1];
      EveryTurnCounts(before);
      HistoryAreNodeKeys([], before);
      if before != [] {
        assert turns[|turns| - 2 + 1].key != turns[|turns| - 2].key && Last(before) == turns[|turns| - 2];
        assert MarshalNode(Last(before).key)[2..] == Last(before).key && MarshalNode(Last(turns).key)[2..] == Last(turns).key;
      }
    }
  }

  // ---- Who may sign ----

  // A signature verifies under no public key but its signer's.
  ghost predicate OnlyOwn(c: Crypto) {
    forall pub, priv, m :: c.verify(pub, m, c.sign(priv, m)) ==> pub == c.public(priv)
  }

  // One rotation around a signature verifies when its signer holds the key
  // declared inside, and only then.
  lemma WrapVerifies(c: Crypto, priv: bytes, pubkey: bytes, inner: NKS, nodeKey: NodeKey, k: NodeKey, vk: Key)
    requires Lawful(c) && MarshalNode(nodeKey) == pubkey
    requires if inner.kind == SigCredential then k == seq(32, i => 0) else UnmarshalNode(inner.pubkey) == Some(k)
    ensures WrappingPublic(inner) == Some(c.public(priv)) ==>
              VerifySignature(c, Wrap(c, priv, pubkey, Some(inner)), nodeKey, vk) == VerifySignature(c, inner, k, vk)
    ensures OnlyOwn(c) && WrappingPublic(inner) != Some(c.public(priv)) ==>
              VerifySignature(c, Wrap(c, priv, pubkey, Some(inner)), nodeKey, vk).Err?
  {
    var s := Wrap(c, priv, pubkey, Some(inner));
    var unsigned := NKS(SigRotation, pubkey, [], [], Some(inner), []);
    assert s.(signature := []) == unsigned;
    assert c.verify(c.public(priv), SigHash(c, s), s.signature);
  }

  ghost predicate AllHold(c: Crypto, marks: seq<Mark>, public: bytes) {
    forall m :: m in marks ==> c.public(m.priv) == public
  }

  // Does a signature verify for the node key it names?
  ghost predicate Verifies(c: Crypto, s: NKS, vk: Key) {
    if s.kind == SigCredential then VerifySignature(c, s, seq(32, i => 0), vk).Ok?
    else UnmarshalNode(s.pubkey).Some? && VerifySignature(c, s, UnmarshalNode(s.pubkey).value, vk).Ok?
  }

  lemma MarshalBack(k: NodeKey)
    ensures UnmarshalNode(MarshalNode(k)) == Some(k)
  {
  }

  lemma WrapVerifiesIff(c: Crypto, m: Mark, inner: NKS, vk: Key)
    requires Lawful(c) && UnmarshalNode(m.key).Some? && (inner.kind != SigCredential ==> UnmarshalNode(inner.pubkey).Some?)
    ensures WrappingPublic(inner) == Some(c.public(m.priv)) && Verifies(c, inner, vk) ==> Verifies(c, Wrap(c, m.priv, m.key, Some(inner)), vk)
    ensures OnlyOwn(c) && Verifies(c, Wrap(c, m.priv, m.key, Some(inner)), vk) ==>
              WrappingPublic(inner) == Some(c.public(m.priv)) && Verifies(c, inner, vk)
  {
    var k := if inner.kind == SigCredential then seq(32, i => 0) else UnmarshalNode(inner.pubkey).value;
    WrapVerifies(c, m.priv, m.key, inner, UnmarshalNode(m.key).value, k, vk);
  }

  // A pile verifies for its newest key when every layer was signed by a holder
  // of the rotation key the leaf declares, and only then.
  lemma {:induction false} PileVerifiesIff(c: Crypto, marks: seq<Mark>, leaf: NKS, vk: Key)
    requires Lawful(c) && IsLeaf(leaf) && AreNodeKeys(KeysOf(marks)) && Verifies(c, leaf, vk)
    ensures AllHold(c, marks, leaf.wrapping) ==> Verifies(c, Pile(c, marks, leaf), vk)
    ensures OnlyOwn(c) && Verifies(c, Pile(c, marks, leaf), vk) ==> AllHold(c, marks, leaf.wrapping)
  {
    if marks != [] {
      PileInner(c, marks, leaf);
      PileVerifiesIff(c, marks[1..], leaf, vk);
      assert marks == [marks[0]] + marks[1..];
      WrapVerifiesIff(c, marks[0], Pile(c, marks[1..], leaf), vk);
    }
  }

  // The pile inside the outermost layer.
  lemma PileInner(c: Crypto, marks: seq<Mark>, leaf: NKS)
    requires Lawful(c) && IsLeaf(leaf) && AreNodeKeys(KeysOf(marks)) && marks != []
    ensures UnmarshalNode(marks[0].key).Some? && AreNodeKeys(KeysOf(marks[1..]))
    ensures var inner := Pile(c, marks[1..], leaf);
            && (forall priv :: WrappingPublic(inner) == Some(c.public(priv)) <==> leaf.wrapping == c.public(priv))
            && (inner.kind != SigCredential && UnmarshalNode(inner.pubkey).None? ==> inner == leaf)
  {
    PileShape(c, marks[1..], leaf);
    assert KeysOf(marks)[0] == marks[0].key;
    forall i | 0 <= i < |marks| - 1 ensures UnmarshalNode(KeysOf(marks[1..])[i]).Some? {
      assert KeysOf(marks[1..])[i] == KeysOf(marks)[i + 1];
    }
    if |marks| > 1 { assert KeysOf(marks[1..])[0] == marks[1].key; }
    assert forall priv :: |c.public(priv)| == PublicKeySize;
  }

  // ---- Details of an accepted signature ----

  function Marshalled(ks: seq<NodeKey>): (bs: seq<bytes>)
    ensures |bs| == |ks| && forall i :: 0 <= i < |ks| ==> bs[i] == MarshalNode(ks[i])
  {
    if ks == [] then [] else [MarshalNode(ks[0])] + Marshalled(ks[1..])
  }

  lemma {:induction false} NodeKeysAreThePubkeys(ls: seq<NKS>)
    requires forall i :: 0 <= i < |ls| ==> ls[i].pubkey == [] || UnmarshalNode(ls[i].pubkey).Some?
    ensures NodeKeysOf(ls).Some? && Marshalled(NodeKeysOf(ls).value) == NonEmptyPubkeys(ls)
  {
    if ls != [] { NodeKeysAreThePubkeys(ls[1..]); }
  }

  lemma InnerKeysWellFormed(c: Crypto, ls: seq<NKS>, nodeKey: NodeKey, vk: Key)
    requires |ls| >= 1 && AuthenticChain(c, ls, nodeKey, vk) && (Last(ls).kind == SigDirect || Last(ls).pubkey == [])
    ensures forall i :: 0 <= i < |ls[1..]| ==> ls[1..][i].pubkey == [] || UnmarshalNode(ls[1..][i].pubkey).Some?
    ensures Last(ls).kind != SigRotation
  {
    forall i | 1 <= i < |ls|
      ensures ls[i].pubkey == [] || UnmarshalNode(ls[i].pubkey).Some?
    {
      assert NamesNode(ls[i]);
      if i < |ls| - 1 {
        assert LayerSigned(c, ls, i);
      }
    }
  }

  // For an accepted rotation whose leaf is direct, or a credential without a
  // node key, the details list every node key inside, newest to oldest, and
  // the leaf.
  lemma DetailsOfAccepted(c: Crypto, s: NKS, nodeKey: NodeKey, vk: Key)
    requires VerifySignature(c, s, nodeKey, vk).Ok? && s.kind == SigRotation
    requires Last(Layers(s)).kind == SigDirect || Last(Layers(s)).pubkey == []
    ensures var d := DetailsOf(s);
            && d.Ok? && d.value.Some?
            && d.value.value.initialSig == Some(Last(Layers(s)))
            && Marshalled(d.value.value.prevNodeKeys) == NonEmptyPubkeys(Layers(s)[1..])
  {
    VerifyAcceptsExactly(c, s, nodeKey, vk);
    var ls := Layers(s);
    InnerKeysWellFormed(c, ls, nodeKey, vk);
    assert ls == [s] + Inner(s.nested);
    assert ls[1..] == Inner(s.nested);
    NodeKeysAreThePubkeys(ls[1..]);
  }

  // The details of a verified pile around a direct leaf.
  lemma PileDetails(c: Crypto, marks: seq<Mark>, leaf: NKS, nodeKey: NodeKey, vk: Key)
    requires IsLeaf(leaf) && marks != [] && AreNodeKeys(KeysOf(marks)) && (leaf.kind == SigDirect || leaf.pubkey == [])
    requires VerifySignature(c, Pile(c, marks, leaf), nodeKey, vk).Ok?
    ensures var d := DetailsOf(Pile(c, marks, leaf));
            && d.Ok? && d.value.Some? && d.value.value.initialSig == Some(leaf)
            && Marshalled(d.value.value.prevNodeKeys) == KeysOf(marks)[1..] + if leaf.pubkey == [] then [] else [leaf.pubkey]
  {
    var s := Pile(c, marks, leaf);
    PileShape(c, marks, leaf);
    DetailsOfAccepted(c, s, nodeKey, vk);
    PileInside(c, marks, leaf);
    assert Layers(s)[1..] == Inner(s.nested);
  }

  // A pile around an authentic leaf of a trusted key, within the nesting limit.
  ghost predicate Decodable(c: Crypto, marks: seq<Mark>, leaf: NKS, trusted: seq<Key>, vk: Key) {
    && Lawful(c) && IsLeaf(leaf) && AreNodeKeys(KeysOf(marks)) && |marks| < MaxNestedLevels
    && leaf.keyID != [] && GetKey(trusted, leaf.keyID) == Found(vk) && AuthenticLeaf(c, leaf, vk)
    && (if leaf.kind == SigDirect then UnmarshalNode(leaf.pubkey).Some? else leaf.pubkey == [] && marks != [])
  }

  lemma PileAuthorized(c: Crypto, marks: seq<Mark>, leaf: NKS, trusted: seq<Key>, vk: Key, current: NodeKey)
    requires Decodable(c, marks, leaf, trusted, vk)
    requires MarshalNode(current) == if marks == [] then leaf.pubkey else marks[0].key
    ensures var s := Pile(c, marks, leaf); var d := NodeKeyAuthorized(c, trusted, current, c.encode(s));
            && c.decode(c.encode(s)) == Some(s) && Levels(s) == |marks| + 1 && AuthorizingKeyID(s) == Ok(leaf.keyID)
            && (OnlyOwn(c) && d.Ok? ==> AllHold(c, marks, leaf.wrapping))
            && (AllHold(c, marks, leaf.wrapping) ==> d == DetailsOf(s) && d.Ok? && Lists(d.value, KeysOf(marks), leaf))
  {
    var s := Pile(c, marks, leaf);
    PileShape(c, marks, leaf);
    MarshalBack(current);
    PileVerifiesIff(c, marks, leaf, vk);
    if marks != [] && AllHold(c, marks, leaf.wrapping) {
      PileDetails(c, marks, leaf, current, vk);
    }
  }

  // The details list the keys before the current one, newest first, down to
  // the leaf's if it names one.
  ghost predicate Lists(d: Option<RotationDetails>, keys: seq<bytes>, leaf: NKS) {
    if keys == [] then d.None?
    else
      && d.Some? && d.value.initialSig == Some(leaf)
      && Marshalled(d.value.prevNodeKeys) == keys[1..] + if leaf.pubkey == [] then [] else [leaf.pubkey]
  }

  // ---- The main results about runs ----

  // Start from a direct signature that authorises k0 under a trusted key.
  // After any rotations by holders of the rotation key it declares, the newest
  // key is authorised, the decoder accepts the signature, the authorising key
  // is unchanged, and the details list the previous keys, newest first, down
  // to the original one.
  lemma RotationsStayAuthorized(c: Crypto, leaf: NKS, k0: NodeKey, trusted: seq<Key>, vk: Key, turns: seq<Turn>)
    requires Lawful(c) && leaf.kind == SigDirect && forall t :: t in turns ==> c.public(t.priv) == leaf.wrapping
    requires leaf.keyID != [] && GetKey(trusted, leaf.keyID) == Found(vk)
    requires VerifySignature(c, leaf, k0, vk).Ok?
    ensures var r := Rotate(c, c.encode(leaf), turns);
            var h := Newest(History(leaf.pubkey, turns));
            var current := if turns == [] then k0 else Last(turns).key;
            && r.Ok? && c.decode(r.value).Some?
            && Levels(c.decode(r.value).value) == |h| + 1 <= MaxNestedLevels
            && AuthorizingKeyID(c.decode(r.value).value) == Ok(leaf.keyID)
            && var d := NodeKeyAuthorized(c, trusted, current, r.value);
               d.Ok? && Lists(d.value, h, leaf)
  {
    RotationRun(c, leaf, turns);
    HistoryAreNodeKeys(leaf.pubkey, turns);
    SignersAreTurns(leaf.pubkey, turns);
    var marks := MarksAfter(leaf.pubkey, turns);
    var current := if turns == [] then k0 else Last(turns).key;
    assert UnmarshalNode(leaf.pubkey).Some?;
    PileAuthorized(c, marks, leaf, trusted, vk, current);
  }

  // Every layer left was signed in one of the turns.
  lemma {:induction false} SignersAreTurns(root: bytes, turns: seq<Turn>)
    ensures forall m :: m in MarksAfter(root, turns) ==> exists t :: t in turns && t.priv == m.priv
  {
    if turns != [] {
      var before := turns[..|turns| - 1];
      SignersAreTurns(root, before);
      assert turns == before + [Last(turns)];
      forall m | m in MarksAfter(root, turns) ensures exists t :: t in turns && t.priv == m.priv {
        if m !in MarksAfter(root, before) {
          assert m.priv == Last(turns).priv && Last(turns) in turns;
        } else {
          var t :| t in before && t.priv == m.priv;
          assert t in turns;
        }
      }
    }
  }

  // A run whose signature still decodes is authorised for its newest key
  // exactly when everyone whose layer is left holds the rotation key.
  lemma RunAuthorizedIff(c: Crypto, leaf: NKS, trusted: seq<Key>, vk: Key, turns: seq<Turn>)
    requires Lawful(c) && OnlyOwn(c) && IsLeaf(leaf) && AuthenticLeaf(c, leaf, vk)
    requires leaf.keyID != [] && GetKey(trusted, leaf.keyID) == Found(vk)
    requires if leaf.kind == SigDirect then UnmarshalNode(leaf.pubkey).Some? else leaf.pubkey == []
    requires turns != [] && (leaf.pubkey == [] ==> |History([], turns)| <= MaxPrevKeys)
    ensures var r := Rotate(c, c.encode(leaf), turns);
            r.Ok? &&
            (NodeKeyAuthorized(c, trusted, Last(turns).key, r.value).Ok? <==>
             AllHold(c, MarksAfter(leaf.pubkey, turns), leaf.wrapping))
  {
    var marks := MarksAfter(leaf.pubkey, turns);
    HistoryAreNodeKeys(leaf.pubkey, turns);
    if leaf.pubkey != [] {
      RotationRun(c, leaf, turns);
    } else {
      KeylessLeafRun(c, leaf, turns);
      HistoryOnlyGrows([], turns);
    }
    PileAuthorized(c, marks, leaf, trusted, vk, Last(turns).key);
  }

  // A node that joined with an auth key is authorised; once it rotates with
  // its own key, it is authorised exactly if that key is the auth key's.
  lemma JoinedRotationIff(c: Crypto, authPriv: bytes, ownPriv: bytes, leaf: NKS, trusted: seq<Key>, vk: Key, k: NodeKey, k': NodeKey)
    requires Lawful(c) && OnlyOwn(c) && IsLeaf(leaf) && AuthenticLeaf(c, leaf, vk)
    requires leaf.keyID != [] && GetKey(trusted, leaf.keyID) == Found(vk)
    requires leaf.kind == SigCredential && leaf.pubkey == [] && leaf.wrapping == c.public(authPriv) && k != k'
    ensures var first := SignByCredential(c, authPriv, leaf, k);
            && first.Ok? && NodeKeyAuthorized(c, trusted, k, first.value).Ok?
            && var second := ResignNKS(c, ownPriv, k', first.value);
               second.Ok? && (NodeKeyAuthorized(c, trusted, k', second.value).Ok? <==> c.public(ownPriv) == c.public(authPriv))
  {
    var t, t' := Turn(authPriv, k), Turn(ownPriv, k');
    CredentialIsFirstRotation(c, authPriv, leaf, k);
    assert [t, t'][..1] == [t] && [t][..0] == [];
    EveryTurnCounts([t]);
    EveryTurnCounts([t, t']);
    RunAuthorizedIff(c, leaf, trusted, vk, [t]);
    RunAuthorizedIff(c, leaf, trusted, vk, [t, t']);
    JoinedMarks(t, t');
  }

  lemma JoinedMarks(t: Turn, t': Turn)
    requires t.key != t'.key
    ensures MarksAfter([], [t]) == [Mark(MarshalNode(t.key), t.priv)]
    ensures MarksAfter([], [t, t']) == [Mark(MarshalNode(t'.key), t'.priv), Mark(MarshalNode(t.key), t.priv)]
  {
    assert [t, t'][..1] == [t] && [t][..0] == [];
    assert MarshalNode(t.key)[2..] == t.key && MarshalNode(t'.key)[2..] == t'.key;
  }
}
