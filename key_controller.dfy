/** `KeyController`: the HTTP handlers over the key store. Each handler's
    answer is a `Reply` holding the status code and the JSON body's fields. */
module KeyController {
  import opened Wrappers
  import opened Strings
  import opened Store
  import opened ServicesService
  import opened KeyService

  datatype Reply = Reply(status: int, success: bool, message: string, error: Option<string>, key: Option<string>)

  function Failed(status: int, message: string, error: string): Reply {
    Reply(status, false, message, Some(error), None)
  }

  /** The key directory after `generateAllKeys` has run past its checks:
      delete the service's keys, then generate the Access pair, then the
      Refresh pair. `unlinkFaulty` names the paths whose unlink fails and
      `writeFaulty` those whose write fails. */
  function AllKeysGenerated(files: map<string, string>, service: string, access: PemPair, refresh: PemPair,
                            unlinkFaulty: set<string>, writeFaulty: set<string>): map<string, string> {
    Generated(Generated(Deleted(files, service, unlinkFaulty), service, Access, access, writeFaulty),
              service, Refresh, refresh, writeFaulty)
  }

  /** With no write fault, regenerating leaves exactly the four new key files
      of the service and every other file as it was, whichever unlinks
      failed: a file whose unlink failed is overwritten. */
  lemma {:induction false} RegenerationReplacesAllKeys(files: map<string, string>, service: string, access: PemPair, refresh: PemPair,
                                                     unlinkFaulty: set<string>)
    ensures var after := AllKeysGenerated(files, service, access, refresh, unlinkFaulty, {});
      && after.Keys == (files.Keys - set f | f in KeyFiles(service)) + (set f | f in KeyFiles(service))
      && after[KeyFile(service, Public, Access)] == access.publicKey
      && after[KeyFile(service, Private, Access)] == access.privateKey
      && after[KeyFile(service, Public, Refresh)] == refresh.publicKey
      && after[KeyFile(service, Private, Refresh)] == refresh.privateKey
      && forall f :: f in files && f !in KeyFiles(service) ==> f in after && after[f] == files[f]
  {
    var deleted := Deleted(files, service, unlinkFaulty);
    DeletedRemovesOnlyServiceFiles(files, service, unlinkFaulty);
    var mid := Generated(deleted, service, Access, access, {});
    GeneratedWritesExactlyThePair(deleted, service, Access, access, {});
    GeneratedWritesExactlyThePair(mid, service, Refresh, refresh, {});
    forall h: Half, t: KeyType, h': Half, t': KeyType | (h, t) != (h', t')
      ensures KeyFile(service, h, t) != KeyFile(service, h', t')
    {
      if KeyFile(service, h, t) == KeyFile(service, h', t') {
        KeyFileInjective(service, h, t, service, h', t');
      }
    }
  }

  /** `generateAllKeys`: 400 for an empty service name and 404 for an unknown
      service, touching no key; otherwise delete, then both pairs, then 201,
      or 500 when a write failed. */
  method GenerateAllKeys(store: KeyStore, services: seq<Service>, service: Option<string>,
                         access: PemPair, refresh: PemPair, unlinkFaulty: set<string>, writeFaulty: set<string>)
    returns (r: Reply)
    modifies store
    ensures !Truthy(service) ==>
              r == Failed(400, "Failed to generate keys", "Service name is required") && store.files == old(store.files)
    ensures Truthy(service) && FindByNames(services, service.value).None? ==>
              r == Failed(404, "Failed to generate keys", "Service not found") && store.files == old(store.files)
    ensures Truthy(service) && FindByNames(services, service.value).Some? ==>
              && store.files == AllKeysGenerated(old(store.files), service.value, access, refresh, unlinkFaulty, writeFaulty)
              && (r.status == 201 || r.status == 500)
              && (r.status == 201 <==> forall f :: f in KeyFiles(service.value) ==> f !in writeFaulty)
              && (r.status == 201 ==> r.success && r.message == "All keys generated for service: " + service.value)
              && (r.status == 500 ==> !r.success && r.error.Some? && r.error.value in writeFaulty &&
                                      r.error.value in KeyFiles(service.value))
  {
    if !Truthy(service) {
      return Failed(400, "Failed to generate keys", "Service name is required");
    }
    var name := service.value;
    var serviceExists := FindByNames(services, name);
    if serviceExists.None? {
      return Failed(404, "Failed to generate keys", "Service not found");
    }
    var _ := store.DeleteKeys(name, unlinkFaulty);
    var accessResult := store.GenerateKeyPair(name, Access, access, writeFaulty);
    var refreshResult := store.GenerateKeyPair(name, Refresh, refresh, writeFaulty);
    if accessResult.Fail? {
      return Failed(500, "Failed to generate keys", accessResult.error);
    }
    if refreshResult.Fail? {
      return Failed(500, "Failed to generate keys", refreshResult.error);
    }
    return Reply(201, true, "All keys generated for service: " + name, None, None);
  }

  /** The parameter checks of `getKey`: both parameters present, and the key
      type's upper-case form is "ACCESS" or "REFRESH". */
  function CheckKeyRequest(service: Option<string>, keyType: Option<string>): (r: Result<KeyType, Reply>)
    ensures r.Success? <==> Truthy(service) && Truthy(keyType) &&
                            (Upper(keyType.value) == "ACCESS" || Upper(keyType.value) == "REFRESH")
    ensures r.Success? ==> Upper(keyType.value) == Upper(TypeName(r.value))
    ensures r.Failure? ==> r.error.status == 400 && !r.error.success
  {
    if !Truthy(service) || !Truthy(keyType) then
      Failure(Failed(400, "Service name and key type are required", "Service name and key type are required"))
    else
      var keyTypeNormalized := Upper(keyType.value);
      assert Upper("Access") == "ACCESS" && Upper("Refresh") == "REFRESH";
      if keyTypeNormalized != "ACCESS" && keyTypeNormalized != "REFRESH" then
        Failure(Failed(400, "Invalid key type", "Key type must be \"Access\" or \"Refresh\""))
      else if keyTypeNormalized == "ACCESS" then Success(Access)
      else Success(Refresh)
  }

  /** The key type check ignores case: "access", "Access" and "aCCeSS" all pass. */
  lemma KeyTypeIgnoresCase()
    ensures CheckKeyRequest(Some("blog"), Some("access")) == Success(Access)
    ensures CheckKeyRequest(Some("blog"), Some("aCCeSS")) == Success(Access)
    ensures CheckKeyRequest(Some("blog"), Some("refresh")) == Success(Refresh)
    ensures CheckKeyRequest(Some("blog"), Some("private")).Failure?
  {
    assert Upper("access") == "ACCESS";
    assert Upper("aCCeSS") == "ACCESS";
    assert Upper("refresh") == "REFRESH";
    assert Upper("private") == "PRIVATE";
  }

  /** The `try`/`catch` of `getKey`: the key with 200, or the error mapped to
      404 when its message includes "not found" and to 500 otherwise. */
  function ReadKeyReply(files: map<string, string>, service: string, forwarded: string, faulty: set<string>): (r: Reply)
    ensures r.status == 200 <==> KeyService.GetKey(files, service, forwarded, faulty).Success?
    ensures r.status == 200 ==> r.success && r.key == Some(files[PublicKeyFile(service, forwarded)])
    ensures r.status != 200 ==> !r.success && r.key.None? && (r.status == 404 || r.status == 500)
    ensures r.status == 404 <==> KeyService.GetKey(files, service, forwarded, faulty).Failure? &&
                                 Contains(KeyService.GetKey(files, service, forwarded, faulty).error, "not found")
  {
    match KeyService.GetKey(files, service, forwarded, faulty)
    case Success(key) => Reply(200, true, "", None, Some(key))
    case Failure(message) =>
      if Contains(message, "not found") then Failed(404, "Key not found", message)
      else Failed(500, "Failed to retrieve key", message)
  }

  /** `getKey` as written: the upper-cased key type ("ACCESS" or "REFRESH")
      is what is forwarded to the key service. */
  function GetKeyAsWritten(files: map<string, string>, service: Option<string>, keyType: Option<string>, faulty: set<string>): (r: Reply)
    ensures r.status == 400 <==> CheckKeyRequest(service, keyType).Failure?
    ensures CheckKeyRequest(service, keyType).Success? ==>
              r == ReadKeyReply(files, service.value, Upper(keyType.value), faulty)
  {
    match CheckKeyRequest(service, keyType)
    case Failure(reply) => reply
    case Success(_) => ReadKeyReply(files, service.value, Upper(keyType.value), faulty)
  }

  /** `getKey` forwarding the key type's declared spelling, "Access" or
      "Refresh", which is the spelling the key files are written under. */
  function GetKey(files: map<string, string>, service: Option<string>, keyType: Option<string>, faulty: set<string>): (r: Reply)
    ensures r.status == 400 <==> CheckKeyRequest(service, keyType).Failure?
    ensures CheckKeyRequest(service, keyType).Success? ==>
              r == ReadKeyReply(files, service.value, TypeName(CheckKeyRequest(service, keyType).value), faulty)
  {
    match CheckKeyRequest(service, keyType)
    case Failure(reply) => reply
    case Success(t) => ReadKeyReply(files, service.value, TypeName(t), faulty)
  }

  /** The upper-cased key type names end in an upper-case letter. */
  lemma {:induction false} UpperTypeName(t: KeyType)
    ensures Upper(TypeName(t)) == (if t == Access then "ACCESS" else "REFRESH")
  {
    match t
    case Access => assert Upper("Access") == "ACCESS";
    case Refresh => assert Upper("Refresh") == "REFRESH";
  }

  /** The suffix `Public<UPPER>.pem` neither ends nor is ended by a
      public-file suffix of a declared key type: the last letter of the key
      type differs in case. */
  lemma {:induction false} UpperSuffixNotPublicTail(t: KeyType, t': KeyType)
    ensures var x, y := "Public" + Upper(TypeName(t)) + ".pem", NameSuffix(Public, t');
      (|x| <= |y| ==> y[|y| - |x|..] != x) && (|y| < |x| ==> x[|x| - |y|..] != y)
  {
    var x, y := "Public" + Upper(TypeName(t)) + ".pem", NameSuffix(Public, t');
    UpperTypeName(t);
    SuffixFacts(Public, t');
    assert x[|x| - 5] == (if t == Access then 'S' else 'H');
    assert |x| <= |y| ==> y[|y| - |x|..][|x| - 5] == y[|y| - 5];
    assert |y| < |x| ==> x[|x| - |y|..][|y| - 5] == x[|x| - 5];
  }

  /** The upper-cased spelling never names a file the key service writes. */
  lemma {:induction false} UpperCaseNameIsNeverAKeyFile(service: string, t: KeyType, other: string, h: Half, t': KeyType)
    ensures PublicKeyFile(service, Upper(TypeName(t))) != KeyFile(other, h, t')
  {
    var k := Upper(TypeName(t));
    assert k == (if t == Access then "ACCESS" else "REFRESH");
    if h == Private {
      PublicFileIsNeverPrivate(service, k, other, t');
    } else {
      var x := "Public" + k + ".pem";
      var y := NameSuffix(Public, t');
      PublicKeyFileSplits(service, k);
      KeyFileSplits(other, Public, t');
      UpperSuffixNotPublicTail(t, t');
      if |x| <= |y| {
        DistinctTails(service, x, other, y);
      } else {
        DistinctTails(other, y, service, x);
      }
    }
  }

  /** As written, asking for a key right after `generateAllKeys` created it
      answers 404: the store is asked for `<service>PublicACCESS.pem`, but the
      key was written to `<service>PublicAccess.pem`. */
  lemma {:induction false} AsWrittenMissesGeneratedKey(files: map<string, string>, service: string, keyType: string,
                                                     access: PemPair, refresh: PemPair)
    requires service != "" && Upper(keyType) == "ACCESS"
    requires PublicKeyFile(service, "ACCESS") !in files
    ensures GetKeyAsWritten(AllKeysGenerated(files, service, access, refresh, {}, {}), Some(service), Some(keyType), {}).status == 404
  {
    var after := AllKeysGenerated(files, service, access, refresh, {}, {});
    UpperAccessAbsentAfterRegeneration(files, service, access, refresh);
    var read := KeyService.GetKey(after, service, "ACCESS", {});
    assert read.Failure? && Contains(read.error, "not found");
  }

  /** Regenerating never creates the file the upper-cased spelling names. */
  lemma {:induction false} UpperAccessAbsentAfterRegeneration(files: map<string, string>, service: string,
                                                              access: PemPair, refresh: PemPair)
    requires PublicKeyFile(service, "ACCESS") !in files
    ensures PublicKeyFile(service, "ACCESS") !in AllKeysGenerated(files, service, access, refresh, {}, {})
  {
    RegenerationReplacesAllKeys(files, service, access, refresh, {});
    UpperTypeName(Access);
    UpperCaseNameIsNeverAKeyFile(service, Access, service, Public, Access);
    UpperCaseNameIsNeverAKeyFile(service, Access, service, Private, Access);
    UpperCaseNameIsNeverAKeyFile(service, Access, service, Public, Refresh);
    UpperCaseNameIsNeverAKeyFile(service, Access, service, Private, Refresh);
    assert PublicKeyFile(service, "ACCESS") !in KeyFiles(service);
  }

  /** The smallest such input: an empty key directory and the service "blog". */
  lemma AsWrittenMissesGeneratedKeyForBlog(access: PemPair, refresh: PemPair)
    ensures GetKeyAsWritten(AllKeysGenerated(map[], "blog", access, refresh, {}, {}), Some("blog"), Some("Access"), {}).status == 404
  {
    assert Upper("Access") == "ACCESS";
    AsWrittenMissesGeneratedKey(map[], "blog", "Access", access, refresh);
  }

  /** Forwarding the declared spelling, a key type in any case returns the
      public key `generateAllKeys` just wrote. */
  lemma {:induction false} GetKeyAfterGenerateAllKeys(files: map<string, string>, service: string, keyType: string,
                                                    access: PemPair, refresh: PemPair)
    requires service != "" && (Upper(keyType) == "ACCESS" || Upper(keyType) == "REFRESH")
    ensures var r := GetKey(AllKeysGenerated(files, service, access, refresh, {}, {}), Some(service), Some(keyType), {});
      r.status == 200 &&
      r.key == Some(if Upper(keyType) == "ACCESS" then access.publicKey else refresh.publicKey)
  {
    var after := AllKeysGenerated(files, service, access, refresh, {}, {});
    RegenerationReplacesAllKeys(files, service, access, refresh, {});
    UpperTypeName(Access);
    UpperTypeName(Refresh);
    var t := if Upper(keyType) == "ACCESS" then Access else Refresh;
    assert CheckKeyRequest(Some(service), Some(keyType)) == Success(t);
    assert KeyFile(service, Public, t) in after;
    assert KeyService.GetKey(after, service, TypeName(t), {}) == Success(after[KeyFile(service, Public, t)]);
  }
}
