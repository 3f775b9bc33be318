/** The store of users' own AI API keys: at most one per user, kept only as KMS
    ciphertext. The repository is a map from user id to record held by the service; KMS
    and the key check against the provider are parameters. */
module UserAiKeys {
  import opened Wrappers

  type Ciphertext = seq<bv8>

  /** A stored record: the ciphertext and KMS key version, never the plaintext. */
  datatype UserAiKey = UserAiKey(userId: string, encryptedApiKey: Ciphertext, kmsKeyVersion: Option<string>, createdAt: int)

  datatype RetrieveKeyResponse = RetrieveKeyResponse(userId: string, apiKey: string, createdAt: int)

  datatype KeyError =
    | ValidationError(message: string, reason: string)
    | ConflictError(message: string, reason: string)
    | NotFoundError(message: string, reason: string)

  /** KMS: encryption gives the ciphertext and the key version ("" when unknown). */
  datatype Kms = Kms(encrypt: string -> (Ciphertext, string), decrypt: (Ciphertext, Option<string>) -> string)

  /** KMS decrypts what it encrypted. */
  ghost predicate RoundTrips(kms: Kms) {
    forall plaintext: string ::
      var (ct, version) := kms.encrypt(plaintext);
      kms.decrypt(ct, if version == "" then None else Some(version)) == plaintext
  }

  /** Why listing the provider's models with the key failed: the HTTP status, if any. */
  datatype ProbeFailure = ProbeFailure(status: Option<int>)

  /** The provider call made with a key: None when it succeeds. */
  type Probe = string -> Option<ProbeFailure>

  /** `validateAIKey`: always accepted in development or local mode; otherwise the key must
      list the provider's models, a 401 meaning the key is invalid. None means valid. */
  function ValidateAiKey(apiKey: string, developmentOrLocal: bool, probe: Probe): (r: Option<KeyError>)
    ensures developmentOrLocal ==> r.None?
    ensures !developmentOrLocal ==> (r.None? <==> probe(apiKey).None?)
    ensures r.Some? ==> r.value.ValidationError? && r.value.reason == "INVALID_API_KEY"
  {
    if developmentOrLocal then None
    else match probe(apiKey)
      case None => None
      case Some(failure) =>
        if failure.status == Some(401) then Some(ValidationError("Invalid OpenAI API key", "INVALID_API_KEY"))
        else Some(ValidationError("Unable to validate OpenAI API key", "INVALID_API_KEY"))
  }

  /** The 401 status is the only one reported as an invalid key. */
  lemma ValidationMessages(apiKey: string, probe: Probe)
    requires probe(apiKey).Some?
    ensures ValidateAiKey(apiKey, false, probe).value.message == "Invalid OpenAI API key"
            <==> probe(apiKey).value.status == Some(401)
    ensures probe(apiKey).value.status != Some(401) ==>
      ValidateAiKey(apiKey, false, probe).value.message == "Unable to validate OpenAI API key"
  {
  }

  /** The record `storeKey` inserts. */
  function NewRecord(userId: string, apiKey: string, kms: Kms, now: int): UserAiKey {
    var (ct, version) := kms.encrypt(apiKey);
    UserAiKey(userId, ct, if version == "" then None else Some(version), now)
  }

  /** `storeKey` on values: the answer and the repository after it. */
  function StoreSpec(repository: map<string, UserAiKey>, userId: string, apiKey: string, developmentOrLocal: bool,
                     probe: Probe, kms: Kms, now: int): (Result<UserAiKey, KeyError>, map<string, UserAiKey>)
  {
    match ValidateAiKey(apiKey, developmentOrLocal, probe)
    case Some(err) => (Failure(err), repository)
    case None =>
      if userId in repository then
        (Failure(ConflictError("User already has an AI key. Delete it first to create a new one.", "USER_KEY_ALREADY_EXISTS")), repository)
      else
        var record := NewRecord(userId, apiKey, kms, now);
        (Success(record), repository[userId := record])
  }

  /** `retrieveKey`. */
  function RetrieveSpec(repository: map<string, UserAiKey>, userId: string, kms: Kms): Result<RetrieveKeyResponse, KeyError> {
    if userId !in repository then Failure(NotFoundError("User AI key not found", "USER_KEY_NOT_FOUND"))
    else
      var userKey := repository[userId];
      Success(RetrieveKeyResponse(userKey.userId, kms.decrypt(userKey.encryptedApiKey, userKey.kmsKeyVersion), userKey.createdAt))
  }

  /** Every record is filed under its own user: the one-key-per-user table. */
  predicate Filed(repository: map<string, UserAiKey>) {
    forall id :: id in repository ==> repository[id].userId == id
  }

  class UserAiKeyService {
    var repository: map<string, UserAiKey>

    constructor (repository: map<string, UserAiKey>)
      ensures this.repository == repository
    {
      this.repository := repository;
    }

    /** `storeKey`: validate, refuse a second key, encrypt, insert. */
    method StoreKey(userId: string, apiKey: string, developmentOrLocal: bool, probe: Probe, kms: Kms, now: int)
      returns (r: Result<UserAiKey, KeyError>)
      modifies this
      ensures (r, repository) == StoreSpec(old(repository), userId, apiKey, developmentOrLocal, probe, kms, now)
    {
      var invalid := ValidateAiKey(apiKey, developmentOrLocal, probe);
      if invalid.Some? {
        return Failure(invalid.value);
      }
      if userId in repository {
        return Failure(ConflictError("User already has an AI key. Delete it first to create a new one.", "USER_KEY_ALREADY_EXISTS"));
      }
      var (ciphertext, keyVersion) := kms.encrypt(apiKey);
      var stored := UserAiKey(userId, ciphertext, if keyVersion == "" then None else Some(keyVersion), now);
      repository := repository[userId := stored];
      return Success(stored);
    }

    /** `retrieveKey`: not found without a record; otherwise the decryption of the
        stored ciphertext with the stored user and creation time. */
    function RetrieveKey(userId: string, kms: Kms): (r: Result<RetrieveKeyResponse, KeyError>)
      reads this
      ensures r.Failure? <==> userId !in repository
      ensures r.Failure? ==> r.error == NotFoundError("User AI key not found", "USER_KEY_NOT_FOUND")
      ensures r.Success? ==> var k := repository[userId];
        r.value == RetrieveKeyResponse(k.userId, kms.decrypt(k.encryptedApiKey, k.kmsKeyVersion), k.createdAt)
    {
      RetrieveSpec(repository, userId, kms)
    }

    /** `deleteKey`: the repository's answer, true exactly when there was a key. */
    method DeleteKey(userId: string) returns (deleted: bool)
      modifies this
      ensures deleted <==> userId in old(repository)
      ensures repository == old(repository) - {userId}
    {
      deleted := userId in repository;
      repository := repository - {userId};
    }

    /** `getKeyInfo`: the stored record, without decrypting. */
    function GetKeyInfo(userId: string): (r: Result<UserAiKey, KeyError>)
      reads this
      ensures r.Failure? <==> userId !in repository
      ensures r.Failure? ==> r.error == NotFoundError("User AI key not found", "USER_KEY_NOT_FOUND")
      ensures r.Success? ==> r.value == repository[userId]
    {
      if userId in repository then Success(repository[userId])
      else Failure(NotFoundError("User AI key not found", "USER_KEY_NOT_FOUND"))
    }

    /** `hasKey`. */
    function HasKey(userId: string): (r: bool)
      reads this
      ensures r <==> GetKeyInfo(userId).Success?
    {
      userId in repository
    }
  }

  /** A rejected key and a second key leave the repository as it was; a stored key is
      the only change, filed under its user, and the table stays one key per user. */
  lemma StoreOutcomes(repository: map<string, UserAiKey>, userId: string, apiKey: string, developmentOrLocal: bool,
                      probe: Probe, kms: Kms, now: int)
    requires Filed(repository)
    ensures var (r, repo') := StoreSpec(repository, userId, apiKey, developmentOrLocal, probe, kms, now);
      && (ValidateAiKey(apiKey, developmentOrLocal, probe).Some? ==> r.Failure? && r.error.ValidationError? && repo' == repository)
      && (ValidateAiKey(apiKey, developmentOrLocal, probe).None? && userId in repository ==>
            r.Failure? && r.error.ConflictError? && repo' == repository)
      && (r.Success? <==> ValidateAiKey(apiKey, developmentOrLocal, probe).None? && userId !in repository)
      && (r.Success? ==> repo'.Keys == repository.Keys + {userId} && repo'[userId] == r.value
                         && forall id :: id in repository ==> repo'[id] == repository[id])
      && Filed(repo')
  {
  }

  /** What is stored is KMS's ciphertext and key version: a key stored and then
      retrieved decrypts to the key itself, with the user and creation time. */
  lemma StoreThenRetrieve(repository: map<string, UserAiKey>, userId: string, apiKey: string, developmentOrLocal: bool,
                          probe: Probe, kms: Kms, now: int)
    requires RoundTrips(kms)
    requires StoreSpec(repository, userId, apiKey, developmentOrLocal, probe, kms, now).0.Success?
    ensures var repo' := StoreSpec(repository, userId, apiKey, developmentOrLocal, probe, kms, now).1;
      RetrieveSpec(repo', userId, kms) == Success(RetrieveKeyResponse(userId, apiKey, now))
  {
    var (ct, version) := kms.encrypt(apiKey);
    assert kms.decrypt(ct, if version == "" then None else Some(version)) == apiKey;
  }

  /** After a delete the user has no key, and a valid key can be stored again. */
  lemma DeleteFreesTheSlot(repository: map<string, UserAiKey>, userId: string, apiKey: string,
                           probe: Probe, kms: Kms, now: int)
    ensures var repo' := repository - {userId};
      && RetrieveSpec(repo', userId, kms).Failure?
      && StoreSpec(repo', userId, apiKey, true, probe, kms, now).0.Success?
  {
  }
}
