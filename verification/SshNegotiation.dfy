/** SSH algorithm negotiation (section 7.1 of RFC 4253): name-lists, KEXINIT and the choice both ends make. */
module SshNegotiation {
  import opened Bytes

  const COMMA: byte := 44
  const KEXINIT: byte := 20

  // --- Name-lists ---------------------------------------------------------------------------------------

  /** Names that a name-list can carry. */
  ghost predicate NameOk(name: Bytes) {
    name != [] && COMMA !in name
  }

  ghost predicate NamesOk(names: seq<Bytes>) {
    forall i :: 0 <= i < |names| ==> NameOk(names[i])
  }

  /** `Buffer::join` with a comma. */
  function Join(names: seq<Bytes>): Bytes {
    if names == [] then []
    else if |names| == 1 then names[0]
    else names[0] + [COMMA] + Join(names[1..])
  }

  /** Where the first comma is, or the length if there is none. */
  function FirstComma(s: Bytes): (n: nat)
    ensures n <= |s| && COMMA !in s[..n] && (n < |s| ==> s[n] == COMMA)
  {
    if s == [] || s[0] == COMMA then 0
    else
      assert forall n :: 0 <= n <= |s| - 1 ==> s[..n + 1] == [s[0]] + s[1..][..n];
      1 + FirstComma(s[1..])
  }

  /** `Buffer::split` at commas, dropping empty pieces. */
  function Split(s: Bytes): seq<Bytes>
    decreases |s|
  {
    if s == [] then []
    else
      var n := FirstComma(s);
      if n == |s| then [s]
      else (if n == 0 then [] else [s[..n]]) + Split(s[n + 1..])
  }

  lemma {:induction false} CommaAt(a: Bytes, b: Bytes)
    requires COMMA !in a
    ensures FirstComma(a + [COMMA] + b) == |a| && FirstComma(a) == |a|
  {
    var s := a + [COMMA] + b;
    var n := FirstComma(s);
    assert s[|a|] == COMMA;
  }

  lemma {:induction false} SplitFirst(a: Bytes, rest: Bytes)
    requires NameOk(a)
    ensures Split(a) == [a] && Split(a + [COMMA] + rest) == [a] + Split(rest)
  {
    hide FirstComma;
    CommaAt(a, rest);
    var s := a + [COMMA] + rest;
    assert s[..|a|] == a && s[|a| + 1..] == rest;
  }

  /** A list of proper names survives being joined and split. */
  lemma {:induction false} SplitJoin(names: seq<Bytes>)
    requires NamesOk(names)
    ensures Split(Join(names)) == names
  {
    if names == [] {
    } else {
      hide Split, NameOk;
      SplitFirst(names[0], Join(names[1..]));
      SplitJoin(names[1..]);
      assert names == [names[0]] + names[1..];
    }
  }

  method SplitBuffer(s: Bytes) returns (parts: seq<Bytes>)
    ensures parts == Split(s)
  {
    parts := [];
    var left := s;
    while left != []
      invariant parts + Split(left) == Split(s)
      decreases |left|
    {
      var off := FirstComma(left);
      if off == |left| {
        parts := parts + [left];
        left := [];
        assert parts + [] == parts;
        return;
      }
      ghost var before := parts;
      if off != 0 {
        parts := parts + [left[..off]];
      }
      assert before + ((if off == 0 then [] else [left[..off]]) + Split(left[off + 1..])) == parts + Split(left[off + 1..]);
      left := left[off + 1..];
    }
    assert parts + [] == parts;
  }

  // --- Strings ------------------------------------------------------------------------------------------------

  function PutString(s: Bytes): Bytes {
    ToBE(4, |s|) + s
  }

  datatype Parsed = Parsed(value: Bytes, rest: Bytes)

  /** `String::decode`. */
  function GetString(s: Bytes): Option<Parsed> {
    if |s| < 4 then None
    else
      var len := FromBE(s[..4]);
      if len == 0 then Some(Parsed([], s[4..]))
      else if |s| < 4 + len then None
      else Some(Parsed(s[4..4 + len], s[4 + len..]))
  }

  lemma {:induction false} StringRoundTrip(s: Bytes, rest: Bytes)
    requires |s| < TWO_32
    ensures GetString(PutString(s) + rest) == Some(Parsed(s, rest))
  {
    var all := PutString(s) + rest;
    assert all[..4] == ToBE(4, |s|);
    assert Radix(2) == 65536;
    assert Radix(4) == 65536 * 65536;
    FromToBE(4, |s|);
    assert all[4..4 + |s|] == s && all[4 + |s|..] == rest;
  }

  datatype Names = Names(names: seq<Bytes>, rest: Bytes)

  function GetNames(s: Bytes): Option<Names> {
    var p := GetString(s);
    if p.None? then None else Some(Names(Split(p.value.value), p.value.rest))
  }

  /** Name-lists short enough for a 32-bit length. */
  ghost predicate ListOk(names: seq<Bytes>) {
    NamesOk(names) && |Join(names)| < TWO_32
  }

  lemma {:induction false} NamesRoundTrip(names: seq<Bytes>, rest: Bytes)
    requires ListOk(names)
    ensures GetNames(PutString(Join(names)) + rest) == Some(Names(names, rest))
  {
    SplitJoin(names);
    StringRoundTrip(Join(names), rest);
  }

  // --- Choosing ----------------------------------------------------------------------------------------------------

  datatype Choice = NoPreference | Chosen(name: Bytes)

  /** The client's first name that the server also lists. */
  ghost predicate FirstCommon(client: seq<Bytes>, server: seq<Bytes>, name: Bytes) {
    exists i :: 0 <= i < |client| && client[i] == name && name in server && forall j :: 0 <= j < i ==> client[j] !in server
  }

  /** What both ends should settle on in one slot; `None` is failure. */
  ghost predicate Settles(client: seq<Bytes>, server: seq<Bytes>, r: Option<Choice>) {
    match r
    case None => (client != [] || server != []) && forall i :: 0 <= i < |client| ==> client[i] !in server
    case Some(NoPreference) => client == [] && server == []
    case Some(Chosen(name)) => FirstCommon(client, server, name)
  }

  /** There is only one way to settle. */
  lemma {:induction false} SettlesOnce(client: seq<Bytes>, server: seq<Bytes>, r: Option<Choice>, r': Option<Choice>)
    requires Settles(client, server, r) && Settles(client, server, r')
    ensures r == r'
  {
    if r.Some? && r.value.Chosen? && r'.Some? && r'.value.Chosen? {
      var i :| 0 <= i < |client| && client[i] == r.value.name && r.value.name in server && forall j :: 0 <= j < i ==> client[j] !in server;
      var k :| 0 <= k < |client| && client[k] == r'.value.name && r'.value.name in server && forall j :: 0 <= j < k ==> client[j] !in server;
      assert i == k;
    }
  }

  datatype Role = Client | Server

  /** `Settles`, as seen from one end. */
  ghost predicate SettlesAt(role: Role, local: seq<Bytes>, remote: seq<Bytes>, r: Option<Choice>) {
    if role.Client? then Settles(local, remote, r) else Settles(remote, local, r)
  }

  /** `choose_algorithm`, after decoding: three nested loops. */
  method ChooseAlgorithm(role: Role, local: seq<Bytes>, remote: seq<Bytes>) returns (r: Option<Choice>)
    ensures SettlesAt(role, local, remote, r)
    ensures r.Some? && r.value.Chosen? ==> r.value.name in local
  {
    if remote == [] && local == [] {
      return Some(NoPreference);
    }
    var client := if role.Client? then local else remote;
    var server := if role.Client? then remote else local;
    var i := 0;
    while i < |client|
      invariant 0 <= i <= |client| && forall j :: 0 <= j < i ==> client[j] !in server
    {
      var k := 0;
      while k < |server|
        invariant 0 <= k <= |server| && client[i] !in server[..k]
      {
        if client[i] == server[k] {
          var a := 0;
          assert client[i] in local;
          while a < |local|
            invariant 0 <= a <= |local| && client[i] !in local[..a]
          {
            if local[a] == client[i] {
              return Some(Chosen(client[i]));
            }
            a := a + 1;
          }
          // The source's NOTREACHED: the name is in the local list.
          assert false;
        }
        k := k + 1;
      }
      i := i + 1;
    }
    return None;
  }

  // --- KEXINIT ------------------------------------------------------------------------------------------------------

  function PutLists(lists: seq<seq<Bytes>>): Bytes {
    if lists == [] then [] else PutString(Join(lists[0])) + PutLists(lists[1..])
  }

  /** `init`: the message, a random cookie, the name-lists, no guess, a reserved word. */
  function KexInit(cookie: Bytes, lists: seq<seq<Bytes>>): Bytes {
    [KEXINIT] + cookie + PutLists(lists) + [0] + [0, 0, 0, 0]
  }

  /** The outcome of `choose_algorithms` for the slots seen so far; `None` if one of them failed. */
  ghost predicate SettleAll(clients: seq<seq<Bytes>>, servers: seq<seq<Bytes>>, r: Option<seq<Choice>>)
    requires |clients| == |servers|
  {
    match r
    case None => exists i :: 0 <= i < |clients| && Settles(clients[i], servers[i], None)
    case Some(cs) => |cs| == |clients| && forall i :: 0 <= i < |clients| ==> Settles(clients[i], servers[i], Some(cs[i]))
  }

  /** The message is the KEXINIT of a peer with these lists. */
  ghost predicate Honest(message: Bytes, cookie: Bytes, lists: seq<seq<Bytes>>) {
    && |cookie| == 16 && message == KexInit(cookie, lists)
    && forall i :: 0 <= i < |lists| ==> ListOk(lists[i])
  }

  ghost predicate SettleAllAt(role: Role, local: seq<seq<Bytes>>, remote: seq<seq<Bytes>>, r: Option<seq<Choice>>)
    requires |local| == |remote|
  {
    match r
    case None => exists i :: 0 <= i < |local| && SettlesAt(role, local[i], remote[i], None)
    case Some(cs) => |cs| == |local| && forall i :: 0 <= i < |local| ==> SettlesAt(role, local[i], remote[i], Some(cs[i]))
  }

  lemma {:induction false} FromOneEnd(role: Role, local: seq<seq<Bytes>>, remote: seq<seq<Bytes>>, r: Option<seq<Choice>>)
    requires |local| == |remote| && SettleAllAt(role, local, remote, r)
    ensures if role.Client? then SettleAll(local, remote, r) else SettleAll(remote, local, r)
  {
    hide Settles;
    if r.None? {
      var i :| 0 <= i < |local| && SettlesAt(role, local[i], remote[i], None);
      assert role.Client? ==> Settles(local[i], remote[i], None);
      assert role.Server? ==> Settles(remote[i], local[i], None);
    } else {
      assert forall i :: 0 <= i < |local| ==> SettlesAt(role, local[i], remote[i], Some(r.value[i]));
    }
  }

  /** `choose_algorithms`: the slots in order, stopping at the first that fails or cannot be parsed. */
  method ChooseAlgorithms(role: Role, local: seq<seq<Bytes>>, message: Bytes, ghost cookie: Bytes, ghost remote: seq<seq<Bytes>>)
      returns (r: Option<seq<Choice>>)
    requires |remote| == |local|
    ensures r.Some? ==> |r.value| == |local|
    ensures r.Some? ==> forall i :: 0 <= i < |local| && r.value[i].Chosen? ==> r.value[i].name in local[i]
    ensures Honest(message, cookie, remote) ==> SettleAllAt(role, local, remote, r)
  {
    hide SettlesAt, ListOk, PutLists, GetNames, KexInit;
    var left := if |message| >= 17 then message[17..] else [];
    ghost var honest := Honest(message, cookie, remote);
    ghost var tail := [0] + [0, 0, 0, 0];
    if honest {
      AfterCookie(cookie, remote);
    }
    var chosen: seq<Choice> := [];
    var i := 0;
    while i < |local|
      invariant 0 <= i <= |local| && |chosen| == i
      invariant forall j :: 0 <= j < i && chosen[j].Chosen? ==> chosen[j].name in local[j]
      invariant honest ==> left == PutLists(remote[i..]) + tail
      invariant honest ==> forall j :: 0 <= j < i ==> SettlesAt(role, local[j], remote[j], Some(chosen[j]))
    {
      if honest {
        NextList(remote, i, tail);
      }
      var p := GetNames(left);
      if p.None? {
        return None;
      }
      var c := ChooseAlgorithm(role, local[i], p.value.names);
      if c.None? {
        return None;
      }
      chosen := chosen + [c.value];
      left := p.value.rest;
      i := i + 1;
    }
    r := Some(chosen);
  }

  lemma {:induction false} AfterCookie(cookie: Bytes, lists: seq<seq<Bytes>>)
    requires |cookie| == 16
    ensures |KexInit(cookie, lists)| >= 17
    ensures KexInit(cookie, lists)[17..] == PutLists(lists[0..]) + ([0] + [0, 0, 0, 0])
  {
    assert lists[0..] == lists;
    assert |[KEXINIT] + cookie| == 17;
    assert KexInit(cookie, lists) == ([KEXINIT] + cookie) + (PutLists(lists) + ([0] + [0, 0, 0, 0]));
  }

  lemma {:induction false} NextList(lists: seq<seq<Bytes>>, i: nat, tail: Bytes)
    requires i < |lists| && ListOk(lists[i])
    ensures GetNames(PutLists(lists[i..]) + tail) == Some(Names(lists[i], PutLists(lists[i + 1..]) + tail))
  {
    assert lists[i..][0] == lists[i] && lists[i..][1..] == lists[i + 1..];
    var first, rest := PutString(Join(lists[i])), PutLists(lists[i + 1..]);
    assert first + rest + tail == first + (rest + tail);
    NamesRoundTrip(lists[i], rest + tail);
  }

  /** The two ends read each other's KEXINIT: both fail, or both settle on the same algorithms. */
  method Negotiate(client: seq<seq<Bytes>>, server: seq<seq<Bytes>>, clientCookie: Bytes, serverCookie: Bytes)
      returns (atClient: Option<seq<Choice>>, atServer: Option<seq<Choice>>)
    requires |client| == |server| && |clientCookie| == 16 && |serverCookie| == 16
    requires forall i :: 0 <= i < |client| ==> ListOk(client[i]) && ListOk(server[i])
    ensures atClient == atServer
    ensures SettleAll(client, server, atClient)
  {
    hide ListOk, Settles;
    atClient := ChooseAlgorithms(Client, client, KexInit(serverCookie, server), serverCookie, server);
    atServer := ChooseAlgorithms(Server, server, KexInit(clientCookie, client), clientCookie, client);
    FromOneEnd(Client, client, server, atClient);
    FromOneEnd(Server, server, client, atServer);
    SettleAllOnce(client, server, atClient, atServer);
  }

  lemma {:induction false} SettleAllOnce(clients: seq<seq<Bytes>>, servers: seq<seq<Bytes>>, r: Option<seq<Choice>>, r': Option<seq<Choice>>)
    requires |clients| == |servers| && SettleAll(clients, servers, r) && SettleAll(clients, servers, r')
    ensures r == r'
  {
    hide Settles;
    if r.Some? && r'.Some? {
      forall i | 0 <= i < |clients|
        ensures r.value[i] == r'.value[i]
      {
        SettlesOnce(clients[i], servers[i], Some(r.value[i]), Some(r'.value[i]));
      }
      assert r.value == r'.value;
    } else if r.None? && r'.Some? {
      var i :| 0 <= i < |clients| && Settles(clients[i], servers[i], None);
      SettlesOnce(clients[i], servers[i], None, Some(r'.value[i]));
    } else if r.Some? && r'.None? {
      var i :| 0 <= i < |clients| && Settles(clients[i], servers[i], None);
      SettlesOnce(clients[i], servers[i], None, Some(r.value[i]));
    }
  }

  // --- Keys ------------------------------------------------------------------------------------------------------------

  /** What the keys of a session are made from. */
  datatype Secrets = Secrets(shared: Bytes, exchangeHash: Bytes, sessionId: Bytes, unit: nat, hash: Bytes -> Bytes)

  /** Hash outputs have a fixed positive length. */
  ghost predicate SecretsOk(k: Secrets) {
    k.unit > 0 && forall s :: |k.hash(s)| == k.unit
  }

  /** K1 || K2 || ... || Kn, as section 7.2 of RFC 4253 defines them. */
  function KeyStream(k: Secrets, x: Bytes, n: nat): Bytes {
    if n == 0 then []
    else if n == 1 then k.hash(k.shared + k.exchangeHash + x + k.sessionId)
    else
      var before := KeyStream(k, x, n - 1);
      before + k.hash(k.shared + k.exchangeHash + before)
  }

  lemma {:induction false} StreamGrows(k: Secrets, x: Bytes, m: nat, n: nat)
    requires m <= n
    ensures KeyStream(k, x, m) <= KeyStream(k, x, n)
    decreases n
  {
    if m < n {
      StreamGrows(k, x, m, n - 1);
    }
  }

  /** `generate_key`: as many rounds as needed, then cut to size. */
  method GenerateKey(k: Secrets, x: Bytes, size: nat) returns (key: Bytes, ghost rounds: nat)
    requires SecretsOk(k)
    ensures |key| == size && key <= KeyStream(k, x, rounds)
  {
    key, rounds := [], 0;
    while |key| < size
      invariant key == KeyStream(k, x, rounds)
      invariant rounds == 0 <==> key == []
      decreases size - |key|
    {
      var input := k.shared + k.exchangeHash;
      if key == [] {
        input := input + x + k.sessionId;
      } else {
        input := input + key;
      }
      key := key + k.hash(input);
      rounds := rounds + 1;
    }
    if |key| > size {
      key := key[..size];
    }
  }

  /** A shorter key is the beginning of a longer one, and a key depends on nothing but its size. */
  lemma {:induction false} KeysAreNested(k: Secrets, x: Bytes, short: Bytes, m: nat, long: Bytes, n: nat)
    requires short <= KeyStream(k, x, m) && long <= KeyStream(k, x, n) && |short| <= |long|
    ensures short <= long
  {
    if m <= n {
      StreamGrows(k, x, m, n);
    } else {
      StreamGrows(k, x, n, m);
    }
  }

  /** The last of the first `n` blocks. */
  function KeyBlock(k: Secrets, x: Bytes, n: nat): Bytes
    requires n > 0
  {
    StreamGrows(k, x, n - 1, n);
    KeyStream(k, x, n)[|KeyStream(k, x, n - 1)|..]
  }

  lemma {:induction false} FirstParts(a: Bytes, b: Bytes, c: Bytes, a': Bytes, b': Bytes, c': Bytes)
    requires a + b + c == a' + b' + c' && |a| == |a'| && |b| == |b'|
    ensures a == a' && b == b' && c == c'
  {
    var s, t := a + b + c, a' + b' + c';
    assert a == s[..|a|] == t[..|a|] == a';
    assert b == s[|a|..|a| + |b|] == t[|a|..|a| + |b|] == b';
    assert c == s[|a| + |b|..] == t[|a| + |b|..] == c';
  }

  /**
    Every block of a key depends on all that goes into it: with a hash without collisions, and secrets
    and letters of the same lengths, first blocks are the same only for the same shared secret, exchange
    hash, letter and session identifier, and later ones only for the same secrets and the same blocks before.
  */
  lemma {:induction false} BlocksBind(k: Secrets, x: Bytes, k': Secrets, x': Bytes, n: nat)
    requires n > 0 && k.hash == k'.hash && forall a, b :: k.hash(a) == k.hash(b) ==> a == b
    requires |k.shared| == |k'.shared| && |k.exchangeHash| == |k'.exchangeHash| && |x| == |x'|
    ensures KeyBlock(k, x, n) == KeyBlock(k', x', n) <==>
            && k.shared == k'.shared && k.exchangeHash == k'.exchangeHash
            && if n == 1 then x == x' && k.sessionId == k'.sessionId else KeyStream(k, x, n - 1) == KeyStream(k', x', n - 1)
  {
    StreamGrows(k, x, n - 1, n);
    StreamGrows(k', x', n - 1, n);
    if n == 1 {
      assert KeyBlock(k, x, 1) == k.hash(k.shared + k.exchangeHash + x + k.sessionId);
      assert KeyBlock(k', x', 1) == k.hash(k'.shared + k'.exchangeHash + x' + k'.sessionId);
      if KeyBlock(k, x, n) == KeyBlock(k', x', n) {
        assert k.shared + k.exchangeHash + x + k.sessionId == k.shared + k.exchangeHash + (x + k.sessionId);
        assert k'.shared + k'.exchangeHash + x' + k'.sessionId == k'.shared + k'.exchangeHash + (x' + k'.sessionId);
        FirstParts(k.shared, k.exchangeHash, x + k.sessionId, k'.shared, k'.exchangeHash, x' + k'.sessionId);
        assert [] + x + k.sessionId == x + k.sessionId && [] + x' + k'.sessionId == x' + k'.sessionId;
        FirstParts([], x, k.sessionId, [], x', k'.sessionId);
      }
    } else {
      var before, before' := KeyStream(k, x, n - 1), KeyStream(k', x', n - 1);
      assert KeyBlock(k, x, n) == k.hash(k.shared + k.exchangeHash + before);
      assert KeyBlock(k', x', n) == k.hash(k'.shared + k'.exchangeHash + before');
      if KeyBlock(k, x, n) == KeyBlock(k', x', n) {
        FirstParts(k.shared, k.exchangeHash, before, k'.shared, k'.exchangeHash, before');
      }
    }
  }
}
