/** Identity resolution and key decoding: `keys` and `unarmor`.
    The directory (HTTP transport plus JSON decoding) and the OpenPGP
    library are collaborators passed in as functions; only the control flow
    around them is modelled. */
module Resolver {
  import opened Results
  import opened Text
  import opened Paths
  import opened FailClosed

  /** A directory account, as the user search returns it. */
  datatype User = User(id: int, name: string, username: string, webURL: string)

  /** One stored GPG key record of a user; `key` is its ASCII-armored text. */
  datatype KeyRecord = KeyRecord(id: int, key: string, createdAt: string)

  /** A parsed OpenPGP primary key with its subkeys, user IDs and signatures;
      its structure is the library's and stays opaque here. */
  datatype PrimaryKey = PrimaryKey(packets: seq<bv8>)

  /** The directory behind the authenticated HTTP client. `searchUsers` is
      the GET of the user search for a term followed by decoding the JSON
      body; `listKeys` is the GET of a key-listing URL followed by decoding. */
  datatype Directory = Directory(
    host: string,
    searchUsers: string -> Result<seq<User>>,
    listKeys: Url -> Result<seq<KeyRecord>>)

  /** The OpenPGP library: `armor.Decode` (the body of the armor block),
      `openpgp.ReadKeys` (its channel, drained into a sequence of read
      outcomes) and `openpgp.DropDuplicates` (the deduplicated key, or an
      error). */
  datatype Decoder = Decoder(
    armorDecode: string -> Result<seq<bv8>>,
    readKeys: seq<bv8> -> seq<Result<PrimaryKey>>,
    dropDuplicates: PrimaryKey -> Result<PrimaryKey>)

  // ---------------------------------------------------------------- unarmor

  /** One iteration of `unarmor`'s loop: a read error, else the outcome of
      deduplicating the key that was read. */
  function ReadStep(dec: Decoder, read: Result<PrimaryKey>): (r: Result<seq<PrimaryKey>>)
    ensures r.Ok? <==> read.Ok? && dec.dropDuplicates(read.value).Ok?
    ensures r.Ok? ==> r.value == [dec.dropDuplicates(read.value).value]
    ensures read.Err? ==> r == Err(read.error)
    ensures read.Ok? && r.Err? ==> r == Err(dec.dropDuplicates(read.value).error)
  {
    match read
    case Err(e) => Err(e)
    case Ok(k) =>
      match dec.dropDuplicates(k)
      case Err(e) => Err(e)
      case Ok(deduped) => Ok([deduped])
  }

  function ReadSteps(dec: Decoder, outcomes: seq<Result<PrimaryKey>>): (steps: seq<Result<seq<PrimaryKey>>>)
    ensures |steps| == |outcomes|
    ensures forall i :: 0 <= i < |outcomes| ==> steps[i] == ReadStep(dec, outcomes[i])
  {
    seq(|outcomes|, i requires 0 <= i < |outcomes| => ReadStep(dec, outcomes[i]))
  }

  /** What `unarmor(armored)` returns. */
  function UnarmorSpec(dec: Decoder, armored: string): Result<seq<PrimaryKey>> {
    match dec.armorDecode(armored)
    case Err(e) => Err(e)
    case Ok(body) => Collect(ReadSteps(dec, dec.readKeys(body)))
  }

  method Unarmor(dec: Decoder, armored: string) returns (r: Result<seq<PrimaryKey>>)
    ensures r == UnarmorSpec(dec, armored)
  {
    var block := dec.armorDecode(armored);
    if block.Err? {
      return Err(block.error);
    }
    var outcomes := dec.readKeys(block.value);
    ghost var steps := ReadSteps(dec, outcomes);
    var result: seq<PrimaryKey> := [];
    for i := 0 to |outcomes|
      invariant Collect(steps[..i]) == Ok(result)
    {
      var read := outcomes[i];
      if read.Err? {
        CollectStopsAt(steps, i, result);
        return Err(read.error);
      }
      var deduped := dec.dropDuplicates(read.value);
      if deduped.Err? {
        CollectStopsAt(steps, i, result);
        return Err(deduped.error);
      }
      CollectSnoc(steps, i, result);
      result := result + [deduped.value];
    }
    assert steps[..|outcomes|] == steps;
    return Ok(result);
  }

  /** A blob whose envelope, key reads and deduplications all succeed yields one
      key per key read, in the order read, each deduplicated. */
  lemma UnarmorOneKeyPerRead(dec: Decoder, armored: string)
    requires dec.armorDecode(armored).Ok?
    requires forall read <- dec.readKeys(dec.armorDecode(armored).value) ::
               read.Ok? && dec.dropDuplicates(read.value).Ok?
    ensures UnarmorSpec(dec, armored).Ok?
    ensures var outcomes := dec.readKeys(dec.armorDecode(armored).value);
            var keys := UnarmorSpec(dec, armored).value;
            |keys| == |outcomes| &&
            forall i :: 0 <= i < |outcomes| ==> keys[i] == dec.dropDuplicates(outcomes[i].value).value
  {
    var outcomes := dec.readKeys(dec.armorDecode(armored).value);
    var steps := ReadSteps(dec, outcomes);
    assert AllOk(steps) by {
      forall i | 0 <= i < |steps| ensures steps[i].Ok? {
        assert outcomes[i] in outcomes;
      }
    }
    CollectConcatenates(steps);
    FlattenSingletons(Values(steps));
  }

  /** The first key that fails to read or to deduplicate fails the whole
      blob with its error; the keys before it are dropped. */
  lemma UnarmorFirstError(dec: Decoder, armored: string, k: nat)
    requires dec.armorDecode(armored).Ok?
    requires var outcomes := dec.readKeys(dec.armorDecode(armored).value);
             k < |outcomes| && ReadStep(dec, outcomes[k]).Err? &&
             forall j :: 0 <= j < k ==> ReadStep(dec, outcomes[j]).Ok?
    ensures UnarmorSpec(dec, armored) == Err(ReadStep(dec, dec.readKeys(dec.armorDecode(armored).value)[k]).error)
  {
    CollectFirstError(ReadSteps(dec, dec.readKeys(dec.armorDecode(armored).value)), k);
  }

  // ------------------------------------------------------------------- keys

  /** `%v` of one user record: its fields in order, space-separated, in braces. */
  function FormatUser(u: User): string {
    "{" + Itoa(u.id) + " " + u.name + " " + u.username + " " + u.webURL + "}"
  }

  /** `%v` of a slice of users. */
  function FormatUsers(users: seq<User>): string {
    "[" + JoinWith(seq(|users|, i requires 0 <= i < |users| => FormatUser(users[i])), " ") + "]"
  }

  const MatchCountPrefix: string := "expected exactly 1 user to match, but got "

  /** The error `keys` gives when the search does not match exactly one user. */
  function MatchCountError(users: seq<User>): (msg: string)
    ensures |msg| > |MatchCountPrefix| && msg[..|MatchCountPrefix|] == MatchCountPrefix
    ensures msg[|MatchCountPrefix|] == '0' <==> users == []
    ensures var start, end := |MatchCountPrefix|, |MatchCountPrefix| + |Itoa(|users|)|;
            && end < |msg| && msg[end] == ':'
            && AllDigits(msg[start..end])
            && ParseInt(msg[start..end]) == Some(|users|)
            && msg[end..] == ": " + FormatUsers(users)
  {
    var count := Itoa(|users|);
    var rest := ": " + FormatUsers(users);
    ThreeParts(MatchCountPrefix, count, rest);
    ItoaRoundTrip(|users|);
    MatchCountPrefix + count + rest
  }

  /** Where each part of a three-part concatenation sits. */
  lemma ThreeParts(a: string, b: string, c: string)
    ensures var m := a + b + c;
            && m[..|a|] == a
            && m[|a|..|a| + |b|] == b
            && m[|a| + |b|..] == c
            && (b != [] ==> m[|a|] == b[0])
            && (c != [] ==> m[|a| + |b|] == c[0])
  {
  }

  /** The key records of the one user the search matches: the first half of
      `keys`, up to the key listing. */
  function ListedRecords(dir: Directory, search: string): (r: Result<seq<KeyRecord>>)
    ensures r.Ok? ==>
              && dir.searchUsers(search).Ok?
              && |dir.searchUsers(search).value| == 1
              && r == dir.listKeys(KeyURL(dir.host, dir.searchUsers(search).value[0].id))
    ensures dir.searchUsers(search).Err? ==> r == Err(dir.searchUsers(search).error)
    ensures dir.searchUsers(search).Ok? && |dir.searchUsers(search).value| != 1 ==>
              r == Err(MatchCountError(dir.searchUsers(search).value))
    ensures dir.searchUsers(search).Ok? && |dir.searchUsers(search).value| == 1 ==>
              r == dir.listKeys(KeyURL(dir.host, dir.searchUsers(search).value[0].id))
  {
    match dir.searchUsers(search)
    case Err(e) => Err(e)
    case Ok(users) =>
      if |users| != 1 then Err(MatchCountError(users))
      else dir.listKeys(KeyURL(dir.host, users[0].id))
  }

  /** `unarmor` applied to each record, in order. */
  function Decodes(dec: Decoder, records: seq<KeyRecord>): (ds: seq<Result<seq<PrimaryKey>>>)
    ensures |ds| == |records|
    ensures forall i :: 0 <= i < |records| ==> ds[i] == UnarmorSpec(dec, records[i].key)
  {
    seq(|records|, i requires 0 <= i < |records| => UnarmorSpec(dec, records[i].key))
  }

  /** What `keys(lookup)` returns for the lookup's search term. */
  function KeysSpec(dir: Directory, dec: Decoder, search: string): Result<seq<PrimaryKey>> {
    match ListedRecords(dir, search)
    case Err(e) => Err(e)
    case Ok(records) => Collect(Decodes(dec, records))
  }

  method Keys(dir: Directory, dec: Decoder, search: string) returns (r: Result<seq<PrimaryKey>>)
    ensures r == KeysSpec(dir, dec, search)
  {
    var users := dir.searchUsers(search);
    if users.Err? {
      return Err(users.error);
    }
    if |users.value| != 1 {
      return Err(MatchCountError(users.value));
    }
    var listed := dir.listKeys(KeyURL(dir.host, users.value[0].id));
    if listed.Err? {
      return Err(listed.error);
    }
    var records := listed.value;
    ghost var decodes := Decodes(dec, records);
    var result: seq<PrimaryKey> := [];
    for i := 0 to |records|
      invariant Collect(decodes[..i]) == Ok(result)
    {
      var primaryKeys := Unarmor(dec, records[i].key);
      if primaryKeys.Err? {
        CollectStopsAt(decodes, i, result);
        return Err(primaryKeys.error);
      }
      CollectSnoc(decodes, i, result);
      result := result + primaryKeys.value;
    }
    assert decodes[..|records|] == decodes;
    return Ok(result);
  }

  /** Zero matches and several matches both fail. */
  lemma KeysRequireSingleMatch(dir: Directory, dec: Decoder, search: string)
    requires dir.searchUsers(search).Ok?
    ensures |dir.searchUsers(search).value| != 1 ==> KeysSpec(dir, dec, search).Err?
    ensures KeysSpec(dir, dec, search).Ok? ==> |dir.searchUsers(search).value| == 1
  {
  }

  /** The error for no match differs from the error for an ambiguous match. */
  lemma MatchCountErrorsDiffer(none: seq<User>, many: seq<User>)
    requires |none| == 0 && |many| >= 2
    ensures MatchCountError(none) != MatchCountError(many)
  {
    assert MatchCountError(many)[|MatchCountPrefix|] != '0';
  }

  /** When the one match's records all decode, the key set is the in-order
      concatenation of what each record decodes to. */
  lemma KeysConcatenateRecords(dir: Directory, dec: Decoder, search: string)
    requires ListedRecords(dir, search).Ok?
    requires forall rec <- ListedRecords(dir, search).value :: UnarmorSpec(dec, rec.key).Ok?
    ensures KeysSpec(dir, dec, search) == Ok(Flatten(Values(Decodes(dec, ListedRecords(dir, search).value))))
  {
    var records := ListedRecords(dir, search).value;
    var ds := Decodes(dec, records);
    assert AllOk(ds) by {
      forall i | 0 <= i < |ds| ensures ds[i].Ok? {
        assert records[i] in records;
      }
    }
    CollectConcatenates(ds);
  }

  /** N well-formed records that each hold one key give exactly N keys. */
  lemma KeysOnePerRecord(dir: Directory, dec: Decoder, search: string)
    requires ListedRecords(dir, search).Ok?
    requires forall rec <- ListedRecords(dir, search).value ::
               UnarmorSpec(dec, rec.key).Ok? && |UnarmorSpec(dec, rec.key).value| == 1
    ensures KeysSpec(dir, dec, search).Ok?
    ensures |KeysSpec(dir, dec, search).value| == |ListedRecords(dir, search).value|
  {
    var records := ListedRecords(dir, search).value;
    var ds := Decodes(dec, records);
    KeysConcatenateRecords(dir, dec, search);
    forall i | 0 <= i < |ds| ensures |Values(ds)[i]| == 1 {
      assert records[i] in records;
    }
    FlattenSingletons(Values(ds));
  }

  /** One record that fails to decode fails the whole lookup with its error,
      whatever the records after it hold. */
  lemma KeysFirstDecodeError(dir: Directory, dec: Decoder, search: string, k: nat)
    requires ListedRecords(dir, search).Ok?
    requires var records := ListedRecords(dir, search).value;
             k < |records| && UnarmorSpec(dec, records[k].key).Err? &&
             forall j :: 0 <= j < k ==> UnarmorSpec(dec, records[j].key).Ok?
    ensures KeysSpec(dir, dec, search) ==
              Err(UnarmorSpec(dec, ListedRecords(dir, search).value[k].key).error)
  {
    CollectFirstError(Decodes(dec, ListedRecords(dir, search).value), k);
  }
}
