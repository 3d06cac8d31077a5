/** `KeyService`: the per-service RSA key files. The key directory is a map
    from file name to PEM text; names are compared exactly, as on a
    case-sensitive file system. `faulty` names the paths whose I/O fails in a
    call with an error other than "no such file" (ENOENT). */
module KeyService {
  import opened Wrappers
  import opened Strings
  import opened Lists

  datatype KeyType = Access | Refresh
  datatype Half = Public | Private

  function TypeName(t: KeyType): string {
    match t
    case Access => "Access"
    case Refresh => "Refresh"
  }

  function HalfName(h: Half): string {
    match h
    case Public => "Public"
    case Private => "Private"
  }

  /** `<service>Public<type>.pem`; `type` is whatever string the caller passes. */
  function PublicKeyFile(service: string, keyType: string): string {
    service + "Public" + keyType + ".pem"
  }

  /** `<service>Private<type>.pem`. */
  function PrivateKeyFile(service: string, keyType: string): string {
    service + "Private" + keyType + ".pem"
  }

  /** The file holding one half of one key pair of one service. */
  function KeyFile(service: string, h: Half, t: KeyType): string {
    match h
    case Public => PublicKeyFile(service, TypeName(t))
    case Private => PrivateKeyFile(service, TypeName(t))
  }

  /** The four files `deleteKeys` unlinks, in its order. */
  function KeyFiles(service: string): seq<string> {
    [KeyFile(service, Public, Access), KeyFile(service, Private, Access),
     KeyFile(service, Public, Refresh), KeyFile(service, Private, Refresh)]
  }

  lemma {:induction false} SameSuffix(a: string, x: string, b: string, y: string)
    requires a + x == b + y && |x| <= |y|
    ensures |b| <= |a| && y[|y| - |x|..] == x
  {
    var w := a + x;
    assert w[|w| - |x|..] == x;
    assert w[|w| - |y|..] == y;
    assert y[|y| - |x|..] == w[|w| - |x|..];
  }

  /** Names whose tails differ are different names. */
  lemma {:induction false} DistinctTails(a: string, x: string, b: string, y: string)
    requires |x| <= |y| && y[|y| - |x|..] != x
    ensures a + x != b + y
  {
    if a + x == b + y {
      SameSuffix(a, x, b, y);
    }
  }

  lemma {:induction false} PublicKeyFileSplits(service: string, keyType: string)
    ensures PublicKeyFile(service, keyType) == service + ("Public" + keyType + ".pem")
  {
    Assoc4(service, "Public", keyType, ".pem");
  }

  function NameSuffix(h: Half, t: KeyType): string {
    HalfName(h) + TypeName(t) + ".pem"
  }

  lemma {:induction false} Assoc4(a: string, b: string, c: string, d: string)
    ensures a + b + c + d == a + (b + c + d)
  {
  }

  lemma {:induction false} KeyFileSplits(service: string, h: Half, t: KeyType)
    ensures KeyFile(service, h, t) == service + NameSuffix(h, t)
  {
    Assoc4(service, HalfName(h), TypeName(t), ".pem");
  }

  /** The characters that tell the four suffixes apart: the length, the last
      letter of the key type, and the letters after the leading 'P'. */
  lemma {:induction false} SuffixFacts(h: Half, t: KeyType)
    ensures var x := NameSuffix(h, t);
      && |x| == (if h == Public then 6 else 7) + (if t == Access then 6 else 7) + 4
      && x[|x| - 5] == (if t == Access then 's' else 'h')
      && x[1] == (if h == Public then 'u' else 'r')
      && x[2] == (if h == Public then 'b' else 'i')
      && x[3] == (if h == Public then 'l' else 'v')
  {
    match (h, t)
    case (Public, Access) => assert NameSuffix(h, t) == "PublicAccess.pem";
    case (Public, Refresh) => assert NameSuffix(h, t) == "PublicRefresh.pem";
    case (Private, Access) => assert NameSuffix(h, t) == "PrivateAccess.pem";
    case (Private, Refresh) => assert NameSuffix(h, t) == "PrivateRefresh.pem";
  }

  /** No name suffix is a proper tail of another. */
  lemma {:induction false} SuffixesDistinct(h1: Half, t1: KeyType, h2: Half, t2: KeyType)
    requires |NameSuffix(h1, t1)| <= |NameSuffix(h2, t2)|
    requires NameSuffix(h2, t2)[|NameSuffix(h2, t2)| - |NameSuffix(h1, t1)|..] == NameSuffix(h1, t1)
    ensures h1 == h2 && t1 == t2
  {
    SuffixFacts(h1, t1);
    SuffixFacts(h2, t2);
    var x, y := NameSuffix(h1, t1), NameSuffix(h2, t2);
    var d := |y| - |x|;
    assert x[|x| - 5] == y[d..][|x| - 5] == y[|y| - 5];
    assert t1 == t2;
    assert x[1] == y[d..][1] == y[d + 1];
  }

  /** File names are injective in (service, half, key type): two different
      keys never share a file. */
  lemma {:induction false} KeyFileInjective(s1: string, h1: Half, t1: KeyType, s2: string, h2: Half, t2: KeyType)
    requires KeyFile(s1, h1, t1) == KeyFile(s2, h2, t2)
    ensures s1 == s2 && h1 == h2 && t1 == t2
  {
    KeyFileSplits(s1, h1, t1);
    KeyFileSplits(s2, h2, t2);
    var x1, x2 := NameSuffix(h1, t1), NameSuffix(h2, t2);
    if |x1| <= |x2| {
      SameSuffix(s1, x1, s2, x2);
      SuffixesDistinct(h1, t1, h2, t2);
    } else {
      SameSuffix(s2, x2, s1, x1);
      SuffixesDistinct(h2, t2, h1, t1);
    }
    var w := s1 + x1;
    assert s1 == w[..|s1|] && s2 == w[..|s2|];
  }

  /** The key type strings a caller may pass: the two the service declares,
      and the upper-case forms the key controller forwards. */
  predicate KnownTypeString(keyType: string) {
    keyType in {"Access", "Refresh", "ACCESS", "REFRESH"}
  }

  /** No public-file suffix for a known type string is a tail of a
      private-file suffix. */
  lemma {:induction false} PublicSuffixNotPrivateTail(keyType: string, t: KeyType)
    requires KnownTypeString(keyType)
    ensures var x, y := "Public" + keyType + ".pem", NameSuffix(Private, t);
      |x| <= |y| && y[|y| - |x|..] != x
  {
    var x, y := "Public" + keyType + ".pem", NameSuffix(Private, t);
    SuffixFacts(Private, t);
    assert 6 <= |keyType| <= 7;
    assert x[1] == 'u';
    var d := |y| - |x|;
    assert 0 <= d <= 2;
    assert y[d..][1] == y[d + 1] != 'u';
  }

  /** A public-key file name never names a private-key file, so reading
      `<service>Public<type>.pem` can never return a private key. */
  lemma {:induction false} PublicFileIsNeverPrivate(s1: string, keyType: string, s2: string, t2: KeyType)
    requires KnownTypeString(keyType)
    ensures PublicKeyFile(s1, keyType) != KeyFile(s2, Private, t2)
  {
    var x := "Public" + keyType + ".pem";
    PublicKeyFileSplits(s1, keyType);
    KeyFileSplits(s2, Private, t2);
    PublicSuffixNotPrivateTail(keyType, t2);
    DistinctTails(s1, x, s2, NameSuffix(Private, t2));
  }

  /** `getKey`: reads only `<service>Public<type>.pem`. A missing file fails
      with a message containing "not found"; any other read error fails with
      "Unable to read public key". */
  function GetKey(files: map<string, string>, service: string, keyType: string, faulty: set<string>): (r: Result<string, string>)
    ensures r.Success? <==> PublicKeyFile(service, keyType) in files && PublicKeyFile(service, keyType) !in faulty
    ensures r.Success? ==> r.value == files[PublicKeyFile(service, keyType)]
    ensures PublicKeyFile(service, keyType) in faulty ==>
              r == Failure("Unable to read public key for service: " + service)
    ensures PublicKeyFile(service, keyType) !in files && PublicKeyFile(service, keyType) !in faulty ==>
              r.Failure? && Contains(r.error, "not found")
  {
    var keyPath := PublicKeyFile(service, keyType);
    if keyPath in faulty then
      Failure("Unable to read public key for service: " + service)
    else if keyPath !in files then
      var head := "Public key for " + keyType + " ";
      var message := head + "not found" + " for service: " + service;
      var i := |head|;
      assert message[i..i + |"not found"|] == "not found";
      ContainsAt(message, "not found", i);
      Failure(message)
    else
      Success(files[keyPath])
  }

  datatype PemPair = PemPair(publicKey: string, privateKey: string)

  /** `fs.writeFile(path, content)`: replaces the file, or fails and leaves it
      as it was when `path` is faulty. */
  function WriteFile(files: map<string, string>, path: string, content: string, faulty: set<string>): map<string, string> {
    if path in faulty then files else files[path := content]
  }

  /** The key directory after `generateKeyPair(service, t)` with the freshly
      generated pair `pem`: both writes are issued. */
  function Generated(files: map<string, string>, service: string, t: KeyType, pem: PemPair, faulty: set<string>): map<string, string> {
    WriteFile(WriteFile(files, KeyFile(service, Public, t), pem.publicKey, faulty),
              KeyFile(service, Private, t), pem.privateKey, faulty)
  }

  /** `fs.unlink(path)`: removes the file; a missing file (ENOENT) or a
      faulty path leaves the directory as it was. */
  function Unlink(files: map<string, string>, path: string, faulty: set<string>): map<string, string> {
    if path in faulty || path !in files then files else files - {path}
  }

  /** Unlinking `paths` one after the other. */
  function UnlinkAll(files: map<string, string>, paths: seq<string>, faulty: set<string>): map<string, string>
    decreases |paths|
  {
    if paths == [] then files
    else Unlink(UnlinkAll(files, paths[..|paths| - 1], faulty), paths[|paths| - 1], faulty)
  }

  /** Unlinking a list of paths removes exactly the listed paths that are not
      faulty, whatever the order and whether or not they exist. */
  lemma {:induction false} UnlinkAllRemoves(files: map<string, string>, paths: seq<string>, faulty: set<string>)
    ensures UnlinkAll(files, paths, faulty) == files - (set f | f in paths && f !in faulty)
    decreases |paths|
  {
    if paths != [] {
      var init := paths[..|paths| - 1];
      UnlinkAllRemoves(files, init, faulty);
      assert forall f :: f in paths <==> f in init || f == paths[|paths| - 1] by {
        assert paths == init + [paths[|paths| - 1]];
      }
    }
  }

  /** The key directory after `deleteKeys(service)`. */
  function Deleted(files: map<string, string>, service: string, faulty: set<string>): map<string, string> {
    UnlinkAll(files, KeyFiles(service), faulty)
  }

  /** Generating a pair writes exactly its two files, replacing what they
      held; every other file is unchanged. */
  lemma GeneratedWritesExactlyThePair(files: map<string, string>, service: string, t: KeyType, pem: PemPair, faulty: set<string>)
    requires KeyFile(service, Public, t) !in faulty && KeyFile(service, Private, t) !in faulty
    ensures var after := Generated(files, service, t, pem, faulty);
      && after.Keys == files.Keys + {KeyFile(service, Public, t), KeyFile(service, Private, t)}
      && after[KeyFile(service, Public, t)] == pem.publicKey
      && after[KeyFile(service, Private, t)] == pem.privateKey
      && forall f :: f in files && f != KeyFile(service, Public, t) && f != KeyFile(service, Private, t) ==>
           after[f] == files[f]
  {
    if KeyFile(service, Public, t) == KeyFile(service, Private, t) {
      KeyFileInjective(service, Public, t, service, Private, t);
    }
  }

  /** Deleting a service's keys removes exactly its four files (minus those
      whose unlink failed) and leaves every other file as it was. */
  lemma DeletedRemovesOnlyServiceFiles(files: map<string, string>, service: string, faulty: set<string>)
    ensures var after := Deleted(files, service, faulty);
      && (forall f :: f in KeyFiles(service) && f !in faulty ==> f !in after)
      && (forall f :: f in files && (f !in KeyFiles(service) || f in faulty) ==> f in after && after[f] == files[f])
      && after.Keys <= files.Keys
  {
    UnlinkAllRemoves(files, KeyFiles(service), faulty);
  }

  /** One service's delete never removes another service's key files. */
  lemma {:induction false} DeleteIsolatesServices(files: map<string, string>, service: string, other: string, faulty: set<string>, h: Half, t: KeyType)
    requires service != other && KeyFile(other, h, t) in files
    ensures KeyFile(other, h, t) in Deleted(files, service, faulty)
    ensures Deleted(files, service, faulty)[KeyFile(other, h, t)] == files[KeyFile(other, h, t)]
  {
    UnlinkAllRemoves(files, KeyFiles(service), faulty);
    if KeyFile(other, h, t) in KeyFiles(service) {
      var k :| 0 <= k < 4 && KeyFiles(service)[k] == KeyFile(other, h, t);
      var h', t' := if k % 2 == 0 then Public else Private, if k < 2 then Access else Refresh;
      assert KeyFiles(service)[k] == KeyFile(service, h', t');
      KeyFileInjective(service, h', t', other, h, t);
    }
  }

  /** After `deleteKeys(service)` has removed the public file, `getKey` for
      that type fails with "not found", never with a stale key. */
  lemma {:induction false} DeleteThenGetKeyNotFound(files: map<string, string>, service: string, t: KeyType, faulty: set<string>, readFaulty: set<string>)
    requires KeyFile(service, Public, t) !in faulty && KeyFile(service, Public, t) !in readFaulty
    ensures var r := GetKey(Deleted(files, service, faulty), service, TypeName(t), readFaulty);
      r.Failure? && Contains(r.error, "not found")
  {
    UnlinkAllRemoves(files, KeyFiles(service), faulty);
    assert KeyFile(service, Public, t) in KeyFiles(service);
  }

  /** After `generateKeyPair(service, t)`, `getKey(service, t)` returns the
      public PEM just written. */
  lemma GenerateThenGetKey(files: map<string, string>, service: string, t: KeyType, pem: PemPair, faulty: set<string>, readFaulty: set<string>)
    requires KeyFile(service, Public, t) !in faulty && KeyFile(service, Private, t) !in faulty
    requires KeyFile(service, Public, t) !in readFaulty
    ensures GetKey(Generated(files, service, t, pem, faulty), service, TypeName(t), readFaulty) == Success(pem.publicKey)
  {
    GeneratedWritesExactlyThePair(files, service, t, pem, faulty);
  }

  /** The key directory as a mutable object. */
  class KeyStore {
    var files: map<string, string>

    constructor ()
      ensures files == map[]
    {
      files := map[];
    }

    /** `generateKeyPair`: `pem` is the freshly generated RSA pair. Both
        writes are issued even when one fails; the call fails if either did,
        with the path of the first failing one. */
    method GenerateKeyPair(service: string, t: KeyType, pem: PemPair, faulty: set<string>) returns (r: Outcome<string>)
      modifies this
      ensures files == Generated(old(files), service, t, pem, faulty)
      ensures r.Pass? <==> KeyFile(service, Public, t) !in faulty && KeyFile(service, Private, t) !in faulty
      ensures r.Fail? ==> r.error in faulty &&
                          (r.error == KeyFile(service, Public, t) || r.error == KeyFile(service, Private, t))
      ensures KeyFile(service, Public, t) in faulty ==> r == Fail(KeyFile(service, Public, t))
    {
      var publicKeyPath := PublicKeyFile(service, TypeName(t));
      var privateKeyPath := PrivateKeyFile(service, TypeName(t));
      files := WriteFile(files, publicKeyPath, pem.publicKey, faulty);
      files := WriteFile(files, privateKeyPath, pem.privateKey, faulty);
      if publicKeyPath in faulty {
        r := Fail(publicKeyPath);
      } else if privateKeyPath in faulty {
        r := Fail(privateKeyPath);
      } else {
        r := Pass;
      }
    }

    /** The loop of `deleteKeys` over its target paths, in order. A missing
        file is skipped silently; a file whose unlink fails otherwise stays
        and is reported in `logged`, and the loop goes on. */
    method UnlinkEach(targets: seq<string>, faulty: set<string>) returns (logged: seq<string>)
      modifies this
      ensures files == UnlinkAll(old(files), targets, faulty)
      ensures logged == Filter(targets, f => f in faulty)
    {
      logged := [];
      var i := 0;
      while i < |targets|
        invariant 0 <= i <= |targets|
        invariant files == UnlinkAll(old(files), targets[..i], faulty)
        invariant logged == Filter(targets[..i], f => f in faulty)
      {
        var file := targets[i];
        FilterAppend(targets[..i], file, f => f in faulty);
        assert targets[..i + 1] == targets[..i] + [file];
        if file in faulty {
          logged := logged + [file];
        }
        files := Unlink(files, file, faulty);
        assert targets[..i + 1][..i] == targets[..i];
        i := i + 1;
      }
      assert targets[..i] == targets;
    }

    /** `deleteKeys`: unlinks the service's four key files and never fails. */
    method DeleteKeys(service: string, faulty: set<string>) returns (logged: seq<string>)
      modifies this
      ensures files == Deleted(old(files), service, faulty)
      ensures logged == Filter(KeyFiles(service), f => f in faulty)
    {
      logged := UnlinkEach(KeyFiles(service), faulty);
    }
  }
}
