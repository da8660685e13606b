/** The shield policy account: from its raw bytes, and the list of cluster nodes, to the set
    of blocked leader addresses.
 */
module Shield {
  import opened Prelude

  const KEY_BYTES := 32
  const POLICY_LEN: nat := 7
  const POLICY_V2_LEN: nat := 39

  type Pubkey = k: Bytes | |k| == KEY_BYTES witness seq(KEY_BYTES, _ => 0)

  datatype PermissionStrategy = Deny | Allow

  // What a failed RPC request reports; nothing depends on it.
  datatype RpcError = RpcError(message: string)

  datatype ShieldError =
    | RpcFailed(error: RpcError)
    | TimedOut
    | UnexpectedEnd
    | InvalidStrategy
    | UnknownPolicyType
    | AllowNotSupported
    | EmptyAccount  // indexing the first byte panics

  datatype Policy = Policy(kind: bv8, strategy: bv8, nonce: bv8, identitiesLen: Bytes)

  datatype PolicyV2 = PolicyV2(kind: bv8, strategy: bv8, nonce: bv8, mint: Bytes, identitiesLen: Bytes)

  // ----- Reading the header through a cursor -----

  function ReadBytes(cursor: Bytes, n: nat): (r: Result<(Bytes, Bytes), ShieldError>)
  {
    if |cursor| < n then Err(UnexpectedEnd) else Ok((cursor[..n], cursor[n..]))
  }

  function ReadByte(cursor: Bytes): (r: Result<(bv8, Bytes), ShieldError>)
  {
    if cursor == [] then Err(UnexpectedEnd) else Ok((cursor[0], cursor[1..]))
  }

  /** The policy and the bytes the decoder left unread. */
  function ReadPolicy(data: Bytes): Result<(Policy, Bytes), ShieldError>
  {
    var kind := ReadByte(data);
    if kind.Err? then Err(kind.error) else
    var strategy := ReadByte(kind.value.1);
    if strategy.Err? then Err(strategy.error) else
    var nonce := ReadByte(strategy.value.1);
    if nonce.Err? then Err(nonce.error) else
    var length := ReadBytes(nonce.value.1, 4);
    if length.Err? then Err(length.error) else
    Ok((Policy(kind.value.0, strategy.value.0, nonce.value.0, length.value.0), length.value.1))
  }

  function ReadPolicyV2(data: Bytes): Result<(PolicyV2, Bytes), ShieldError>
  {
    var kind := ReadByte(data);
    if kind.Err? then Err(kind.error) else
    var strategy := ReadByte(kind.value.1);
    if strategy.Err? then Err(strategy.error) else
    var nonce := ReadByte(strategy.value.1);
    if nonce.Err? then Err(nonce.error) else
    var mint := ReadBytes(nonce.value.1, KEY_BYTES);
    if mint.Err? then Err(mint.error) else
    var length := ReadBytes(mint.value.1, 4);
    if length.Err? then Err(length.error) else
    Ok((PolicyV2(kind.value.0, strategy.value.0, nonce.value.0, mint.value.0, length.value.0), length.value.1))
  }

  /** LEN is exactly what the decoder consumes: the decoder succeeds if and only if the slice
      from LEN on is in range, and that slice is what it left unread. */
  lemma HeaderLength(data: Bytes)
    ensures ReadPolicy(data).Ok? <==> |data| >= POLICY_LEN
    ensures ReadPolicy(data).Ok? ==>
              && ReadPolicy(data).value.1 == data[POLICY_LEN..]
              && ReadPolicy(data).value.0 == Policy(data[0], data[1], data[2], data[3..7])
    ensures ReadPolicyV2(data).Ok? <==> |data| >= POLICY_V2_LEN
    ensures ReadPolicyV2(data).Ok? ==>
              && ReadPolicyV2(data).value.1 == data[POLICY_V2_LEN..]
              && ReadPolicyV2(data).value.0 == PolicyV2(data[0], data[1], data[2], data[3..35], data[35..39])
  {
    if |data| >= 3 {
      assert data[1..][1..][1..] == data[3..];
      var tail := data[3..];
      if |tail| >= 4 {
        assert tail[..4] == data[3..7] && tail[4..] == data[7..];
      }
      if |tail| >= KEY_BYTES {
        assert tail[..KEY_BYTES] == data[3..35] && tail[KEY_BYTES..] == data[35..];
        if |tail| >= KEY_BYTES + 4 {
          assert data[35..][..4] == data[35..39] && data[35..][4..] == data[39..];
        }
      }
    }
  }

  function TryStrategy(strategy: bv8): Result<PermissionStrategy, ShieldError>
  {
    if strategy == 0 then Ok(Deny) else if strategy == 1 then Ok(Allow) else Err(InvalidStrategy)
  }

  // ----- The identities -----

  /** All complete chunks of KEY_BYTES bytes; an incomplete last chunk is ignored. */
  function ChunksExact(bytes: Bytes): (chunks: seq<Pubkey>)
  {
    if |bytes| < KEY_BYTES then [] else [bytes[..KEY_BYTES]] + ChunksExact(bytes[KEY_BYTES..])
  }

  function TryDeserializeIdentities(data: Bytes, len: nat): seq<Pubkey>
    requires len <= |data|
  {
    ChunksExact(data[len..])
  }

  function Concatenated(keys: seq<Pubkey>): Bytes
  {
    if keys == [] then [] else keys[0] + Concatenated(keys[1..])
  }

  /** Any list of identities followed by an incomplete chunk is read back exactly. */
  lemma {:induction false} IdentitiesRoundTrip(header: Bytes, keys: seq<Pubkey>, trailing: Bytes)
    requires |trailing| < KEY_BYTES
    ensures TryDeserializeIdentities(header + Concatenated(keys) + trailing, |header|) == keys
    decreases |keys|
  {
    var body := Concatenated(keys) + trailing;
    assert (header + Concatenated(keys) + trailing)[|header|..] == body;
    if keys != [] {
      var rest := Concatenated(keys[1..]) + trailing;
      assert body == keys[0] + rest;
      assert body[..KEY_BYTES] == keys[0] && body[KEY_BYTES..] == rest;
      IdentitiesRoundTrip([], keys[1..], trailing);
      assert ([] + Concatenated(keys[1..]) + trailing)[0..] == rest;
    }
  }

  /** The number of identities, and where in the account each one stands. */
  lemma {:induction false} ChunkPositions(bytes: Bytes)
    ensures |ChunksExact(bytes)| == |bytes| / KEY_BYTES
    ensures forall k :: 0 <= k < |ChunksExact(bytes)| ==>
              KEY_BYTES * k + KEY_BYTES <= |bytes| && ChunksExact(bytes)[k] == bytes[KEY_BYTES * k..KEY_BYTES * k + KEY_BYTES]
    decreases |bytes|
  {
    if |bytes| >= KEY_BYTES {
      var rest := bytes[KEY_BYTES..];
      ChunkPositions(rest);
      forall k | 0 <= k < |ChunksExact(bytes)|
        ensures KEY_BYTES * k + KEY_BYTES <= |bytes| && ChunksExact(bytes)[k] == bytes[KEY_BYTES * k..KEY_BYTES * k + KEY_BYTES]
      {
        if k > 0 {
          var from := KEY_BYTES * (k - 1);
          assert ChunksExact(bytes)[k] == ChunksExact(rest)[k - 1];
          assert rest[from..from + KEY_BYTES] == bytes[from + KEY_BYTES..from + KEY_BYTES + KEY_BYTES];
        }
      }
    }
  }

  /** The identity in slot k of the account, if the account is long enough to hold it. */
  ghost predicate StandsAt(data: Bytes, len: nat, k: nat, key: Pubkey)
  {
    len + KEY_BYTES * k + KEY_BYTES <= |data| && data[len + KEY_BYTES * k..len + KEY_BYTES * k + KEY_BYTES] == key
  }

  lemma IdentitySlots(data: Bytes, len: nat, key: Pubkey)
    requires len <= |data|
    ensures key in TryDeserializeIdentities(data, len) <==> exists k: nat :: StandsAt(data, len, k, key)
    ensures |TryDeserializeIdentities(data, len)| == (|data| - len) / KEY_BYTES
  {
    var body := data[len..];
    ChunkPositions(body);
    var keys := TryDeserializeIdentities(data, len);
    forall k: nat | k < |keys|
      ensures StandsAt(data, len, k, keys[k])
    {
      assert body[KEY_BYTES * k..KEY_BYTES * k + KEY_BYTES] == data[len + KEY_BYTES * k..len + KEY_BYTES * k + KEY_BYTES];
    }
    forall k: nat | StandsAt(data, len, k, key)
      ensures key in keys
    {
      assert k < |body| / KEY_BYTES;
      assert body[KEY_BYTES * k..KEY_BYTES * k + KEY_BYTES] == key;
      assert keys[k] == key;
    }
  }

  // ----- The provider -----

  /** get_blocked_identities on the reply of the account request, as public keys. */
  function GetBlockedIdentities(account: Result<Bytes, RpcError>): Result<seq<Pubkey>, ShieldError>
  {
    if account.Err? then Err(RpcFailed(account.error)) else
    var data := account.value;
    if data == [] then Err(EmptyAccount)
    else if data[0] == 0 then
      var policy := ReadPolicy(data);
      if policy.Err? then Err(policy.error) else
      var strategy := TryStrategy(policy.value.0.strategy);
      HeaderLength(data);
      Denied(strategy, TryDeserializeIdentities(data, POLICY_LEN))
    else if data[0] == 1 then
      var policy := ReadPolicyV2(data);
      if policy.Err? then Err(policy.error) else
      var strategy := TryStrategy(policy.value.0.strategy);
      HeaderLength(data);
      Denied(strategy, TryDeserializeIdentities(data, POLICY_V2_LEN))
    else Err(UnknownPolicyType)
  }

  function Denied(strategy: Result<PermissionStrategy, ShieldError>, identities: seq<Pubkey>): Result<seq<Pubkey>, ShieldError>
  {
    match strategy
    case Err(error) => Err(error)
    case Ok(Allow) => Err(AllowNotSupported)
    case Ok(Deny) => Ok(identities)
  }

  datatype NodeInfo = NodeInfo(pubkey: string, tpuQuic: Option<SocketAddr>)

  /** One refresh request: both RPC replies, and whether the time limit struck first. */
  datatype Replies = Replies(nodes: Result<seq<NodeInfo>, RpcError>, account: Result<Bytes, RpcError>, timedOut: bool)

  /** The QUIC addresses of the nodes whose key is among the texts, in node order. */
  function Join(nodes: seq<NodeInfo>, texts: seq<string>): seq<SocketAddr>
  {
    if nodes == [] then []
    else Join(Init(nodes), texts) +
         (if Last(nodes).pubkey in texts && Last(nodes).tpuQuic.Some? then [Last(nodes).tpuQuic.value] else [])
  }

  function Texts(text: Pubkey -> string, keys: seq<Pubkey>): seq<string>
  {
    seq(|keys|, i requires 0 <= i < |keys| => text(keys[i]))
  }

  /** get_blocked_ips under the refresher's time limit.  The node list is requested first. */
  function GetBlockedIps(text: Pubkey -> string, replies: Replies): Result<seq<SocketAddr>, ShieldError>
  {
    if replies.timedOut then Err(TimedOut)
    else if replies.nodes.Err? then Err(RpcFailed(replies.nodes.error))
    else
      var identities := GetBlockedIdentities(replies.account);
      if identities.Err? then Err(identities.error)
      else Ok(Join(replies.nodes.value, Texts(text, identities.value)))
  }

  // ----- What a refresh means, in terms of the account bytes alone -----

  /** The account holds a Deny policy of a known kind that is at least as long as its header. */
  ghost predicate IsDenyPolicy(data: Bytes)
  {
    && data != [] && (data[0] == 0 || data[0] == 1)
    && |data| >= HeaderLen(data)
    && data[1] == 0
  }

  function HeaderLen(data: Bytes): nat
    requires data != []
  {
    if data[0] == 0 then POLICY_LEN else POLICY_V2_LEN
  }

  ghost predicate Lists(data: Bytes, key: Pubkey)
    requires data != []
  {
    exists k: nat :: StandsAt(data, HeaderLen(data), k, key)
  }

  ghost predicate IsInjective(text: Pubkey -> string)
  {
    forall a: Pubkey, b: Pubkey :: text(a) == text(b) ==> a == b
  }

  /** The refresh is good: it answered in time, with a node list and a Deny policy. */
  ghost predicate GoodRefresh(replies: Replies)
  {
    !replies.timedOut && replies.nodes.Ok? && replies.account.Ok? && IsDenyPolicy(replies.account.value)
  }

  /** The refresh indexes into an account without bytes, which panics. */
  predicate Panics(replies: Replies)
  {
    !replies.timedOut && replies.nodes.Ok? && replies.account == Ok([])
  }

  /** Which failure a refresh reports: the time-out before anything else, then the node request, then
      the account request, then what is wrong with the account's bytes, first byte first. */
  lemma RefreshErrors(text: Pubkey -> string, replies: Replies)
    requires !GoodRefresh(replies)
    ensures var r := GetBlockedIps(text, replies);
            if replies.timedOut then r == Err(TimedOut)
            else if replies.nodes.Err? then r == Err(RpcFailed(replies.nodes.error))
            else if replies.account.Err? then r == Err(RpcFailed(replies.account.error))
            else
              var data := replies.account.value;
              if data == [] then r == Err(EmptyAccount)
              else if data[0] > 1 then r == Err(UnknownPolicyType)
              else if |data| < (if data[0] == 0 then 7 else 39) then r == Err(UnexpectedEnd)
              else r == Err(if data[1] == 1 then AllowNotSupported else InvalidStrategy)
  {
    if replies.account.Ok? && replies.account.value != [] {
      HeaderLength(replies.account.value);
    }
  }

  /** A refresh panics if and only if both requests are answered in time and the account is empty;
      no failure reported by the RPC node panics. */
  lemma PanicCondition(text: Pubkey -> string, replies: Replies)
    ensures GetBlockedIps(text, replies) == Err(EmptyAccount) <==> Panics(replies)
  {
    if replies.account.Ok? && replies.account.value != [] {
      HeaderLength(replies.account.value);
    }
  }

  /** The address belongs to a node whose key the policy bytes list. */
  ghost predicate Denies(text: Pubkey -> string, replies: Replies, address: SocketAddr)
    requires GoodRefresh(replies)
  {
    exists n, key: Pubkey ::
      && 0 <= n < |replies.nodes.value|
      && replies.nodes.value[n] == NodeInfo(text(key), Some(address))
      && Lists(replies.account.value, key)
  }

  lemma {:induction false} JoinMembers(nodes: seq<NodeInfo>, texts: seq<string>, address: SocketAddr)
    ensures address in Join(nodes, texts) <==>
            exists n :: 0 <= n < |nodes| && nodes[n].pubkey in texts && nodes[n].tpuQuic == Some(address)
  {
    if nodes != [] {
      JoinMembers(Init(nodes), texts, address);
      var n := |nodes| - 1;
      assert Last(nodes) == nodes[n];
      if address in Join(Init(nodes), texts) {
        var m :| 0 <= m < |Init(nodes)| && Init(nodes)[m].pubkey in texts && Init(nodes)[m].tpuQuic == Some(address);
        assert nodes[m] == Init(nodes)[m];
      }
    }
  }

  lemma IdentitiesOfPolicy(account: Result<Bytes, RpcError>)
    ensures GetBlockedIdentities(account).Ok? <==> account.Ok? && IsDenyPolicy(account.value)
    ensures GetBlockedIdentities(account).Ok? ==>
              forall key: Pubkey :: key in GetBlockedIdentities(account).value <==> Lists(account.value, key)
  {
    if account.Ok? && account.value != [] {
      var data := account.value;
      HeaderLength(data);
      if IsDenyPolicy(data) {
        forall key: Pubkey
          ensures key in GetBlockedIdentities(account).value <==> Lists(data, key)
        {
          IdentitySlots(data, HeaderLen(data), key);
        }
      }
    }
  }

  /** A refresh replaces the blocked set exactly when it is good, and then by exactly the QUIC
      addresses of the nodes whose identity stands in the policy bytes. */
  lemma RefreshMeaning(text: Pubkey -> string, replies: Replies)
    ensures GetBlockedIps(text, replies).Ok? <==> GoodRefresh(replies)
    ensures GoodRefresh(replies) ==>
              forall address :: address in GetBlockedIps(text, replies).value <==> Denies(text, replies, address)
  {
    IdentitiesOfPolicy(replies.account);
    if GoodRefresh(replies) {
      var nodes := replies.nodes.value;
      var keys := GetBlockedIdentities(replies.account).value;
      var texts := Texts(text, keys);
      forall address
        ensures address in GetBlockedIps(text, replies).value <==> Denies(text, replies, address)
      {
        JoinMembers(nodes, texts, address);
        if address in Join(nodes, texts) {
          var n :| 0 <= n < |nodes| && nodes[n].pubkey in texts && nodes[n].tpuQuic == Some(address);
          var i :| 0 <= i < |texts| && texts[i] == nodes[n].pubkey;
          assert Lists(replies.account.value, keys[i]);
          assert nodes[n] == NodeInfo(text(keys[i]), Some(address));
        }
        if Denies(text, replies, address) {
          var n, key: Pubkey :| && 0 <= n < |nodes| && nodes[n] == NodeInfo(text(key), Some(address))
                                && Lists(replies.account.value, key);
          var i :| 0 <= i < |keys| && keys[i] == key;
          assert texts[i] == nodes[n].pubkey;
        }
      }
    }
  }

  /** With a faithful text form, a node's address is blocked if and only if its own key is listed. */
  lemma NodeIsBlocked(text: Pubkey -> string, replies: Replies, key: Pubkey, address: SocketAddr)
    requires IsInjective(text) && GoodRefresh(replies)
    requires NodeInfo(text(key), Some(address)) in replies.nodes.value
    requires forall other :: other in replies.nodes.value && other.tpuQuic == Some(address) ==> other.pubkey == text(key)
    ensures address in GetBlockedIps(text, replies).value <==> Lists(replies.account.value, key)
  {
    RefreshMeaning(text, replies);
    var n :| 0 <= n < |replies.nodes.value| && replies.nodes.value[n] == NodeInfo(text(key), Some(address));
  }

  // ----- The length field of the header -----

  function LittleEndian(bytes: Bytes): nat
    requires |bytes| == 4
  {
    bytes[0] as nat + 0x100 * bytes[1] as nat + 0x1_0000 * bytes[2] as nat + 0x100_0000 * bytes[3] as nat
  }

  /** The parser never looks at the length field, which ends the header.  The parsed list has the
      announced length if and only if the field equals the number of complete chunks behind it. */
  lemma LengthFieldIsIgnored(data: Bytes, field: Bytes)
    requires |field| == 4 && data != [] && (data[0] == 0 || data[0] == 1) && |data| >= HeaderLen(data)
    ensures var len := HeaderLen(data);
            GetBlockedIdentities(Ok(data[..len - 4] + field + data[len..])) == GetBlockedIdentities(Ok(data))
    ensures GetBlockedIdentities(Ok(data)).Ok? ==>
              var len := HeaderLen(data);
              var announced := LittleEndian(data[len - 4..len]);
              |GetBlockedIdentities(Ok(data)).value| == announced <==> announced == (|data| - len) / KEY_BYTES
  {
    var len := HeaderLen(data);
    var data' := data[..len - 4] + field + data[len..];
    HeaderLength(data);
    HeaderLength(data');
    assert data'[len..] == data[len..];
    assert data'[0] == data[0] && data'[1] == data[1];
    ChunkPositions(data[len..]);
  }

  /** Both layouts: a Deny account reads back exactly the identities it was written with. */
  lemma PolicyRoundTrip(nonce: bv8, field: Bytes, mint: Pubkey, keys: seq<Pubkey>, trailing: Bytes)
    requires |field| == 4 && |trailing| < KEY_BYTES
    ensures GetBlockedIdentities(Ok([0, 0, nonce] + field + Concatenated(keys) + trailing)) == Ok(keys)
    ensures GetBlockedIdentities(Ok([1, 0, nonce] + mint + field + Concatenated(keys) + trailing)) == Ok(keys)
  {
    var header := [0, 0, nonce] + field;
    var data := header + Concatenated(keys) + trailing;
    HeaderLength(data);
    IdentitiesRoundTrip(header, keys, trailing);
    assert data[0] == 0 && data[1] == 0;
    var header2 := [1, 0, nonce] + mint + field;
    var data2 := header2 + Concatenated(keys) + trailing;
    HeaderLength(data2);
    IdentitiesRoundTrip(header2, keys, trailing);
    assert data2[0] == 1 && data2[1] == 0;
  }
}
