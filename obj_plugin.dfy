/**
 * The object-storage plugin's command rules: link expiry, ACL requests,
 * where credentials come from, usage totals, the label of generated keys
 * and the dispatch of the plugin's sub-commands.
 */
module ObjPlugin {
  import opened Wrappers
  import opened Strings
  import opened Dicts
  import opened ObjHelpers

  // ---------------------------------------------------------------------------
  // signurl: expiry offset (`generate_url`)
  // ---------------------------------------------------------------------------

  /**
   * The `ExpiresIn` offset of a signed link: `+N` is an offset of N seconds,
   * anything else an absolute epoch time measured from `ceil(now)`. The
   * error carries the text `int()` could not parse.
   */
  function ExpiryOffset(expiry: string, nowCeil: int): (r: Result<int, string>)
    ensures StartsWith(expiry, "+") ==>
      && |expiry| >= 1
      && (r.Ok? <==> ParseInt(expiry[1..]).Some?)
      && (r.Ok? ==> r.value == ParseInt(expiry[1..]).value)
      && (r.Err? ==> r.error == expiry[1..])
    ensures !StartsWith(expiry, "+") ==>
      && (r.Ok? <==> ParseInt(expiry).Some?)
      && (r.Ok? ==> r.value == ParseInt(expiry).value - nowCeil)
      && (r.Err? ==> r.error == expiry)
  {
    if StartsWith(expiry, "+") then
      match ParseInt(expiry[1..])
      case None => Err(expiry[1..])
      case Some(offset) => Ok(offset)
    else
      match ParseInt(expiry)
      case None => Err(expiry)
      case Some(at) => Ok(at - nowCeil)
  }

  /** `+N` is N seconds from now, whatever the clock says. */
  lemma ExpiryOffsetRelative(n: int, nowCeil: int)
    ensures ExpiryOffset("+" + IntToString(n), nowCeil) == Ok(n)
  {
    assert ("+" + IntToString(n))[1..] == IntToString(n);
    ParseIntRoundTrip(n);
  }

  /** An epoch time T is T minus the rounded-up current time. */
  lemma ExpiryOffsetAbsolute(at: int, nowCeil: int)
    ensures ExpiryOffset(IntToString(at), nowCeil) == Ok(at - nowCeil)
  {
    ParseIntRoundTrip(at);
    NatToStringDigits(if at < 0 then -at else at);
    assert IntToString(at)[0] != '+';
  }

  // ---------------------------------------------------------------------------
  // setacl (`set_acl`)
  // ---------------------------------------------------------------------------

  const BOTH_ACLS_MSG: string := "You may not set the ACL to public and private in the same call"
  const NO_ACL_MSG: string := "You must choose an ACL to apply"

  /** The client call `set_acl` makes. */
  datatype AclCall = PutObjectAcl | PutBucketAcl

  datatype AclRequest = AclRequest(call: AclCall, options: Dict<string>)

  /** Python truthiness of an optional text argument. */
  predicate Given(o: Option<string>)
  {
    o.Some? && o.value != ""
  }

  /** `set_acl` up to the client call: validates the flags and builds the call's options. */
  method SetAcl(bucket: string, file: Option<string>, aclPublic: bool, aclPrivate: bool) returns (r: Result<AclRequest, string>)
    ensures aclPublic && aclPrivate ==> r == Err(BOTH_ACLS_MSG)
    ensures !aclPublic && !aclPrivate ==> r == Err(NO_ACL_MSG)
    ensures r.Ok? <==> aclPublic != aclPrivate
    ensures r.Ok? ==>
      && Get(r.value.options, "Bucket") == Some(bucket)
      && Get(r.value.options, "ACL") == Some(if aclPublic then "public-read" else "private")
      && Keys(r.value.options) == (if Given(file) then ["Bucket", "ACL", "Key"] else ["Bucket", "ACL"])
      && (Given(file) ==> Get(r.value.options, "Key") == Some(file.value))
      && r.value.call == (if Given(file) then PutObjectAcl else PutBucketAcl)
  {
    if aclPublic && aclPrivate {
      return Err(BOTH_ACLS_MSG);
    }
    if !aclPublic && !aclPrivate {
      return Err(NO_ACL_MSG);
    }
    var acl := if aclPublic then "public-read" else "private";
    var options: Dict<string> := [("Bucket", bucket), ("ACL", acl)];
    assert "Bucket" != "ACL";
    var call: AclCall;
    if Given(file) {
      assert "Key" !in Keys(options);
      options := Set(options, "Key", file.value);
      call := PutObjectAcl;
    } else {
      call := PutBucketAcl;
    }
    return Ok(AclRequest(call, options));
  }

  // ---------------------------------------------------------------------------
  // du (`show_usage`)
  // ---------------------------------------------------------------------------

  /** An entry of a bucket listing; `Size` may be absent. */
  datatype ListedObject = ListedObject(size: Option<int>)

  /** `obj.get("Size", 0)` */
  function SizeOf(o: ListedObject): int
  {
    if o.size.Some? then o.size.value else 0
  }

  function TotalSize(objects: seq<ListedObject>): int
  {
    if objects == [] then 0 else SizeOf(objects[0]) + TotalSize(objects[1..])
  }

  lemma {:induction false} TotalSizeAppend(a: seq<ListedObject>, b: seq<ListedObject>)
    ensures TotalSize(a + b) == TotalSize(a) + TotalSize(b)
  {
    if a != [] {
      assert (a + b)[1..] == a[1..] + b;
      TotalSizeAppend(a[1..], b);
    } else {
      assert a + b == b;
    }
  }

  /** `[parsed.bucket]` when a bucket is named, else every listed bucket. */
  function UsageBuckets(bucket: Option<string>, listed: seq<string>): seq<string>
  {
    if Given(bucket) then [bucket.value] else listed
  }

  function GrandTotal(buckets: seq<string>, objectsOf: string -> seq<ListedObject>): int
  {
    if buckets == [] then 0 else TotalSize(objectsOf(buckets[0])) + GrandTotal(buckets[1..], objectsOf)
  }

  /** Every object of every bucket, bucket by bucket. */
  function AllObjects(buckets: seq<string>, objectsOf: string -> seq<ListedObject>): seq<ListedObject>
  {
    if buckets == [] then [] else objectsOf(buckets[0]) + AllObjects(buckets[1..], objectsOf)
  }

  /** The grand total is the size of all objects across the buckets. */
  lemma {:induction false} GrandTotalIsAllObjects(buckets: seq<string>, objectsOf: string -> seq<ListedObject>)
    ensures GrandTotal(buckets, objectsOf) == TotalSize(AllObjects(buckets, objectsOf))
  {
    if buckets != [] {
      GrandTotalIsAllObjects(buckets[1..], objectsOf);
      TotalSizeAppend(objectsOf(buckets[0]), AllObjects(buckets[1..], objectsOf));
    }
  }

  /** A bucket's usage row; `denominate` is `_denominate`, which works in floating point. */
  function UsageRow(total: int, count: nat, bucket: string, denominate: int -> string): seq<string>
  {
    [PadTo(denominate(total), 7, false), NatToString(count) + " objects", bucket]
  }

  /**
   * `show_usage` after the listings are fetched: one row per bucket with its
   * total size and object count, then the separator and grand total only
   * when more than one bucket was listed.
   */
  method ShowUsage(bucket: Option<string>, listed: seq<string>, objectsOf: string -> seq<ListedObject>,
                   denominate: int -> string)
    returns (rows: seq<seq<string>>, footer: seq<string>)
    ensures var buckets := UsageBuckets(bucket, listed);
      && |rows| == |buckets|
      && (forall i :: 0 <= i < |buckets| ==>
            rows[i] == UsageRow(TotalSize(objectsOf(buckets[i])), |objectsOf(buckets[i])|, buckets[i], denominate))
      && footer == (if |buckets| > 1 then ["--------", denominate(GrandTotal(buckets, objectsOf)) + " Total"] else [])
  {
    var bucketNames := if Given(bucket) then [bucket.value] else listed;
    var grandTotal := 0;
    rows := [];
    for b := 0 to |bucketNames|
      invariant |rows| == b
      invariant forall i :: 0 <= i < b ==>
        rows[i] == UsageRow(TotalSize(objectsOf(bucketNames[i])), |objectsOf(bucketNames[i])|, bucketNames[i], denominate)
      invariant grandTotal + GrandTotal(bucketNames[b..], objectsOf) == GrandTotal(bucketNames, objectsOf)
    {
      var objects := objectsOf(bucketNames[b]);
      var total := 0;
      var objCount := 0;
      for j := 0 to |objects|
        invariant total == TotalSize(objects[..j]) && objCount == j
      {
        TotalSizeAppend(objects[..j], [objects[j]]);
        assert objects[..j + 1] == objects[..j] + [objects[j]];
        total := total + SizeOf(objects[j]);
        objCount := objCount + 1;
      }
      assert objects[..|objects|] == objects;
      assert bucketNames[b..][1..] == bucketNames[b + 1..];
      grandTotal := grandTotal + total;
      rows := rows + [UsageRow(total, objCount, bucketNames[b], denominate)];
    }
    assert bucketNames[|bucketNames|..] == [];
    if |bucketNames| > 1 {
      footer := ["--------", denominate(grandTotal) + " Total"];
    } else {
      footer := [];
    }
  }

  // ---------------------------------------------------------------------------
  // Credentials (`get_credentials`, `_get_s3_creds`)
  // ---------------------------------------------------------------------------

  datatype S3Creds = S3Creds(accessKey: Option<string>, secretKey: Option<string>)

  /** Why no credentials could be had; the texts of the scope and access errors live in the plugin's config module. */
  datatype CredsError =
    | CredentialsMismatch
    | NoConfiguration
    | NoScopes
    | NoAccess
    | KeyGenerationFailed
    | MissingField(key: string)

  /** Where `_get_s3_creds` took the keys from: the stored ones, or keys created under `keyLabel`. */
  datatype CredsSource = StoredKeys | GeneratedKeys(keyLabel: string)

  /** The failure a non-200 status stands for. */
  function StatusFailure(status: int): (r: Option<CredsError>)
    ensures r.None? <==> status == 200
    ensures r.Some? ==> r.value in {NoScopes, NoAccess, KeyGenerationFailed}
    ensures r == Some(KeyGenerationFailed) <==> status !in {200, 401, 403}
  {
    if status == 200 then None
    else if status == 401 then Some(NoScopes)
    else if status == 403 then Some(NoAccess)
    else Some(KeyGenerationFailed)
  }

  /** `str(time.time()).split(".", maxsplit=1)[0]`, from the clock's text. */
  function TimestampPart(clock: string): string
  {
    Split(clock, '.')[0]
  }

  /** The label before trimming. */
  function RawCredsLabel(user: string, host: string, clock: string): string
  {
    "linode-cli-" + Take(user, 13) + "@" + Take(host, 13) + "-" + TimestampPart(clock)
  }

  /** The label as the plugin trims it: `label[50 - len(label):]` once it is over 50 characters. */
  function CredsLabelAsWritten(user: string, host: string, clock: string): string
  {
    var keyLabel := RawCredsLabel(user, host, clock);
    if |keyLabel| > 50 then SliceFrom(keyLabel, 50 - |keyLabel|) else keyLabel
  }

  /** The trim keeps only the last L - 50 characters of an L-character label, not the last 50. */
  lemma CredsLabelAsWrittenLength(user: string, host: string, clock: string)
    requires |RawCredsLabel(user, host, clock)| > 50
    ensures |CredsLabelAsWritten(user, host, clock)| == |RawCredsLabel(user, host, clock)| - 50
  {
  }

  /** The timestamp is the clock's text up to its first dot. */
  lemma TimestampPartBeforeDot(whole: string, fraction: string)
    requires '.' !in whole
    ensures TimestampPart(whole + "." + fraction) == whole
  {
    var clock := whole + "." + fraction;
    assert clock == whole + ['.'] + fraction;
    assert clock[|whole|] == '.';
    IndexOfAfter(whole, '.', fraction);
    assert clock[..|whole|] == whole;
  }

  /** The untrimmed label has the 13 fixed characters, the truncated user and host names and the timestamp. */
  lemma RawCredsLabelLength(user: string, host: string, whole: string, fraction: string)
    requires '.' !in whole
    ensures |RawCredsLabel(user, host, whole + "." + fraction)| == 13 + Min(|user|, 13) + Min(|host|, 13) + |whole|
  {
    TimestampPartBeforeDot(whole, fraction);
  }

  /** A 51-character label is cut down to a single character, where 50 were meant to be kept. */
  lemma CredsLabelAsWrittenCounterexample()
    ensures |CredsLabelAsWritten("abcdefghijklm", "hostnamexxxxx", "123456789012.5")| == 1
    ensures |CredsLabel("abcdefghijklm", "hostnamexxxxx", "123456789012.5")| == 50
  {
    var user, host, whole, clock := "abcdefghijklm", "hostnamexxxxx", "123456789012", "123456789012.5";
    assert clock == whole + "." + "5";
    RawCredsLabelLength(user, host, whole, "5");
    CredsLabelAsWrittenLength(user, host, clock);
  }

  /** The label trimmed from the front to its last 50 characters, as the trim is meant to work. */
  function CredsLabel(user: string, host: string, clock: string): (r: string)
    ensures var keyLabel := RawCredsLabel(user, host, clock);
      && |r| == Min(|keyLabel|, 50)
      && r == keyLabel[|keyLabel| - |r|..]
  {
    var keyLabel := RawCredsLabel(user, host, clock);
    if |keyLabel| > 50 then keyLabel[|keyLabel| - 50..] else keyLabel
  }

  /**
   * `_get_s3_creds`: the stored keys unless `force` or none are stored;
   * otherwise, with a configuration (a token), checks the account, creates
   * keys under the trimmed label and takes the new keys from the response.
   */
  function GetS3Creds(force: bool, stored: S3Creds, token: Option<string>, accountStatus: int,
                      user: string, host: string, clock: string,
                      createStatus: int, createResponse: Dict<string>): Result<(S3Creds, CredsSource), CredsError>
  {
    if !force && stored.accessKey.Some? then Ok((stored, StoredKeys))
    else if token.None? then Err(NoConfiguration)
    else if StatusFailure(accountStatus).Some? then Err(StatusFailure(accountStatus).value)
    else
      var keyLabel := CredsLabel(user, host, clock);
      if StatusFailure(createStatus).Some? then Err(StatusFailure(createStatus).value)
      else
        match Get(createResponse, "access_key")
        case None => Err(MissingField("access_key"))
        case Some(accessKey) =>
          match Get(createResponse, "secret_key")
          case None => Err(MissingField("secret_key"))
          case Some(secretKey) => Ok((S3Creds(Some(accessKey), Some(secretKey)), GeneratedKeys(keyLabel)))
  }

  /**
   * Stored keys are kept unless forced; generated keys come from the
   * response, under a label of at most 50 characters that ends the way the
   * untrimmed label does.
   */
  lemma GetS3CredsSpec(force: bool, stored: S3Creds, token: Option<string>, accountStatus: int,
                       user: string, host: string, clock: string,
                       createStatus: int, createResponse: Dict<string>)
    ensures var r := GetS3Creds(force, stored, token, accountStatus, user, host, clock, createStatus, createResponse);
      && (!force && stored.accessKey.Some? ==> r == Ok((stored, StoredKeys)))
      && (r.Ok? && r.value.1.GeneratedKeys? ==>
            && |r.value.1.keyLabel| <= 50
            && IsSuffix(r.value.1.keyLabel, RawCredsLabel(user, host, clock))
            && r.value.0.accessKey == Get(createResponse, "access_key")
            && r.value.0.secretKey == Get(createResponse, "secret_key")
            && accountStatus == 200 && createStatus == 200)
  {
  }

  /**
   * Generated keys carry exactly the label the plugin sends whenever the
   * untrimmed label fits in 50 characters, as it does for every timestamp of
   * at most 11 digits: the corrected trim only differs from the plugin's on
   * labels it has to cut.
   */
  lemma GetS3CredsLabelAsWritten(force: bool, stored: S3Creds, token: Option<string>, accountStatus: int,
                                 user: string, host: string, whole: string, fraction: string,
                                 createStatus: int, createResponse: Dict<string>)
    requires '.' !in whole && |whole| <= 11
    ensures var r := GetS3Creds(force, stored, token, accountStatus, user, host, whole + "." + fraction, createStatus, createResponse);
      r.Ok? && r.value.1.GeneratedKeys? ==>
        && r.value.1.keyLabel == CredsLabelAsWritten(user, host, whole + "." + fraction)
        && r.value.1.keyLabel == RawCredsLabel(user, host, whole + "." + fraction)
  {
    RawCredsLabelLength(user, host, whole, fraction);
  }

  predicate IsSuffix(s: string, t: string)
  {
    |s| <= |t| && t[|t| - |s|..] == s
  }

  /**
   * `get_credentials`: both environment keys or neither; with neither, the
   * outcome of `_get_s3_creds` (passed in as `lookup`).
   */
  function GetCredentials(env: S3Creds, lookup: Result<(S3Creds, CredsSource), CredsError>): Result<S3Creds, CredsError>
  {
    if Given(env.accessKey) != Given(env.secretKey) then Err(CredentialsMismatch)
    else if !Given(env.accessKey) then
      match lookup
      case Err(e) => Err(e)
      case Ok(found) => Ok(found.0)
    else Ok(env)
  }

  /** Exactly one of the two environment keys set is an error; both set are used as they are; neither falls back to the lookup. */
  lemma GetCredentialsSpec(env: S3Creds, lookup: Result<(S3Creds, CredsSource), CredsError>)
    ensures Given(env.accessKey) != Given(env.secretKey) ==> GetCredentials(env, lookup) == Err(CredentialsMismatch)
    ensures Given(env.accessKey) && Given(env.secretKey) ==> GetCredentials(env, lookup) == Ok(env)
    ensures !Given(env.accessKey) && !Given(env.secretKey) ==>
      GetCredentials(env, lookup) == (if lookup.Ok? then Ok(lookup.value.0) else Err(lookup.error))
  {
  }

  // ---------------------------------------------------------------------------
  // Sub-command dispatch (`call`)
  // ---------------------------------------------------------------------------

  datatype Command =
    | CreateBucket | DeleteBucket | ListObjectsOrBuckets | ListAllObjects | ShowUsageCommand
    | UploadObject | GetObject | DeleteObject | GenerateUrl | SetAclCommand
    | EnableStaticSite | StaticSiteInfo | DisableStaticSite

  /** The top-level option the plugin drops from a command's arguments. */
  const NO_DEFAULTS := "--no-defaults"

  /** `COMMAND_MAP` */
  const COMMAND_MAP: map<string, Command> := map[
    "mb" := CreateBucket, "rb" := DeleteBucket, "ls" := ListObjectsOrBuckets, "la" := ListAllObjects,
    "du" := ShowUsageCommand, "put" := UploadObject, "get" := GetObject, "rm" := DeleteObject,
    "del" := DeleteObject, "signurl" := GenerateUrl, "setacl" := SetAclCommand,
    "ws-create" := EnableStaticSite, "ws-info" := StaticSiteInfo, "ws-delete" := DisableStaticSite]

  /**
   * `args.remove(x)` with the `ValueError` of a missing entry suppressed:
   * the first occurrence of `x` goes, and nothing else changes.
   */
  function RemoveFirst(args: seq<string>, x: string): (r: seq<string>)
    ensures x !in args ==> r == args
    ensures x in args ==> |r| == |args| - 1
  {
    if |args| == 0 then []
    else if args[0] == x then args[1..]
    else [args[0]] + RemoveFirst(args[1..], x)
  }

  /** One occurrence of `x` goes, and every other argument stays, as many times as it was given. */
  lemma {:induction false} RemoveFirstMultiset(args: seq<string>, x: string)
    ensures multiset(RemoveFirst(args, x)) == multiset(args) - multiset{x}
  {
    if |args| > 0 {
      assert args == [args[0]] + args[1..];
      if args[0] != x {
        RemoveFirstMultiset(args[1..], x);
      }
    }
  }

  /** The occurrence removed is the first one: what comes before it and after it is kept in order. */
  lemma {:induction false} RemoveFirstSplits(before: seq<string>, x: string, after: seq<string>)
    requires x !in before
    ensures RemoveFirst(before + [x] + after, x) == before + after
  {
    if |before| > 0 {
      assert (before + [x] + after)[1..] == before[1..] + [x] + after;
      RemoveFirstSplits(before[1..], x, after);
      assert before == [before[0]] + before[1..];
    }
  }

  /** What `call` goes on to do. */
  datatype CallOutcome =
    | MissingBoto
    | PrintHelp
    | CredentialsFailed(error: CredsError)
    | RunCommand(command: Command, commandArgs: seq<string>)
    | RegenerateKeys
    | ConfigurePlugin
    | NoSuchCommand(message: string)

  /**
   * `call`: without boto3 nothing runs; without a command the help is
   * printed; unless help was asked for, credentials are fetched first and
   * their failure ends the call; then the command is looked up and run on
   * the arguments the plugin's own parser left (`rest`), less one
   * `--no-defaults`.
   */
  function CallOutcomeOf(hasBoto: bool, args: seq<string>, command: Option<string>, rest: seq<string>,
                         credentials: Result<S3Creds, CredsError>): CallOutcome
  {
    var isHelp := "--help" in args || "-h" in args;
    if !hasBoto then MissingBoto
    else if !Given(command) then PrintHelp
    else if !isHelp && credentials.Err? then CredentialsFailed(credentials.error)
    else if command.value in COMMAND_MAP then RunCommand(COMMAND_MAP[command.value], RemoveFirst(rest, NO_DEFAULTS))
    else if command.value == "regenerate-keys" then RegenerateKeys
    else if command.value == "configure" then ConfigurePlugin
    else NoSuchCommand("No command " + command.value)
  }

  /** `rm` and `del` are the same command, and `regenerate-keys` and `configure` are reachable outside the map. */
  lemma CallOutcomeCommands(args: seq<string>, rest: seq<string>, credentials: Result<S3Creds, CredsError>)
    requires credentials.Ok?
    ensures CallOutcomeOf(true, args, Some("rm"), rest, credentials) == CallOutcomeOf(true, args, Some("del"), rest, credentials)
    ensures CallOutcomeOf(true, args, Some("rm"), rest, credentials).RunCommand?
    ensures CallOutcomeOf(true, args, Some("rm"), rest, credentials).command == DeleteObject
    ensures CallOutcomeOf(true, args, Some("regenerate-keys"), rest, credentials) == RegenerateKeys
    ensures CallOutcomeOf(true, args, Some("configure"), rest, credentials) == ConfigurePlugin
  {
    assert "regenerate-keys" !in COMMAND_MAP;
    assert "configure" !in COMMAND_MAP;
  }

  /** A command is run on its own arguments with the first `--no-defaults` dropped and every other argument kept in order. */
  lemma CallOutcomeDropsNoDefaults(args: seq<string>, name: string, before: seq<string>, after: seq<string>,
                                   credentials: Result<S3Creds, CredsError>)
    requires name in COMMAND_MAP && credentials.Ok? && NO_DEFAULTS !in before
    ensures CallOutcomeOf(true, args, Some(name), before + [NO_DEFAULTS] + after, credentials)
         == RunCommand(COMMAND_MAP[name], before + after)
  {
    RemoveFirstSplits(before, NO_DEFAULTS, after);
  }

  /** Asking for help never fetches credentials, so a credentials problem cannot stop it. */
  lemma CallOutcomeHelp(args: seq<string>, command: Option<string>, rest: seq<string>, credentials: Result<S3Creds, CredsError>)
    requires "--help" in args && Given(command)
    ensures CallOutcomeOf(true, args, command, rest, credentials) == CallOutcomeOf(true, args, command, rest, Ok(S3Creds(None, None)))
  {
  }

  /** The cluster `get_client` starts from: with defaults on, a missing or empty `--cluster` gives way to the configured one. */
  function ClusterFor(parsedCluster: Option<string>, defaults: bool, configured: Option<string>): Option<string>
  {
    if defaults && !Given(parsedCluster) then configured else parsedCluster
  }
}
