/** The hash-linked ledger of utils/blockchain.py that records Trust IDs.
    SHA-256 over a block's JSON and keccak are uninterpreted: the block hash is
    a `const` function of the ledger, and SHA-256 over strings and keccak are
    parameters of the Trust ID operations. */
module Blockchain {

  import opened Wrappers

  /** A JSON value stored in a block's data dictionary. */
  datatype Value = Str(s: string) | Num(n: int)

  /** A block's `data`: the genesis text, or a dictionary (a Trust ID record). */
  datatype Payload = Text(text: string) | Dict(entries: map<string, Value>)

  /** Every key of a block except `hash`: what `_hash_block` serialises. */
  datatype Header = Header(index: int, timestamp: string, data: Payload, previousHash: string, nonce: int)

  datatype Block = Block(index: int, timestamp: string, data: Payload, previousHash: string, nonce: int, hash: string)

  const GenesisData: Payload := Text("Genesis Block - RailGuard India Trust ID System")
  const Difficulty: string := "000"

  function HeaderOf(b: Block): Header
  {
    Header(b.index, b.timestamp, b.data, b.previousHash, b.nonce)
  }

  /** `_hash_block`: the hash of the sorted-key JSON of the block with its `hash`
      key dropped, so two blocks that differ only in `hash` hash alike. */
  function HashBlock(blockHash: Header -> string, b: Block): string
  {
    blockHash(HeaderOf(b))
  }

  lemma HashIgnoresStoredHash(blockHash: Header -> string, b: Block, stored: string)
    ensures HashBlock(blockHash, b.(hash := stored)) == HashBlock(blockHash, b)
  {
  }

  function WithHash(h: Header, hash: string): Block
  {
    Block(h.index, h.timestamp, h.data, h.previousHash, h.nonce, hash)
  }

  /** `hash.startswith('000')`. */
  predicate MeetsDifficulty(hash: string)
  {
    |hash| >= |Difficulty| && hash[..|Difficulty|] == Difficulty
  }

  /** Nonce `n` solves the proof-of-work puzzle for `template`. */
  predicate Solves(blockHash: Header -> string, template: Header, n: int)
  {
    MeetsDifficulty(blockHash(template.(nonce := n)))
  }

  /** Some nonce solves the puzzle: exactly when the mining loop terminates. */
  ghost predicate Mineable(blockHash: Header -> string, template: Header)
  {
    exists n: nat :: Solves(blockHash, template, n)
  }

  /** No nonce below `nonce` solves the puzzle. */
  predicate NoSmallerSolution(blockHash: Header -> string, template: Header, nonce: int)
  {
    forall n :: 0 <= n < nonce ==> !Solves(blockHash, template, n)
  }

  /** `_initialize_blockchain`: index 0, a previous hash of 64 '0's, nonce 0,
      and the hash of those fields; no proof of work is asked of it. */
  function Genesis(blockHash: Header -> string, now: string): (g: Block)
    ensures g.index == 0 && g.nonce == 0 && g.data == GenesisData
    ensures |g.previousHash| == 64 && forall i :: 0 <= i < 64 ==> g.previousHash[i] == '0'
    ensures g.hash == HashBlock(blockHash, g)
  {
    var header := Header(0, now, GenesisData, seq(64, _ => '0'), 0);
    WithHash(header, blockHash(header))
  }

  /** `verify_chain`'s condition: from index 1 on, each block's stored hash is
      its recomputed hash and its previous hash is its predecessor's hash.
      The genesis block and the `index` fields are not examined. */
  predicate ChainValid(blockHash: Header -> string, chain: seq<Block>)
  {
    forall i :: 1 <= i < |chain| ==> LinkValid(blockHash, chain, i)
  }

  predicate LinkValid(blockHash: Header -> string, chain: seq<Block>, i: int)
    requires 1 <= i < |chain|
  {
    chain[i].hash == HashBlock(blockHash, chain[i]) && chain[i].previousHash == chain[i - 1].hash
  }

  /** The proof-of-work loop of `_create_block`: starting from nonce 0, the
      first nonce whose block hash starts with "000". The loop runs forever when
      there is no such nonce; the precondition says there is one. */
  method Mine(blockHash: Header -> string, template: Header) returns (nonce: int, hash: string)
    requires template.nonce == 0
    requires Mineable(blockHash, template)
    ensures nonce >= 0 && hash == blockHash(template.(nonce := nonce))
    ensures MeetsDifficulty(hash)
    ensures NoSmallerSolution(blockHash, template, nonce)
  {
    ghost var solution: nat :| Solves(blockHash, template, solution);
    nonce := template.nonce;
    while true
      invariant 0 <= nonce <= solution
      invariant NoSmallerSolution(blockHash, template, nonce)
      decreases solution - nonce
    {
      hash := blockHash(template.(nonce := nonce));
      if MeetsDifficulty(hash) {
        return;
      }
      assert !Solves(blockHash, template, nonce);
      nonce := nonce + 1;
    }
  }

  /** The template `_create_block` starts mining from. */
  function NextHeader(last: Block, data: Payload, now: string): Header
  {
    Header(last.index + 1, now, data, last.hash, 0)
  }

  /** Appending a block that is linked to the last block and carries its own
      hash keeps the chain valid. */
  lemma AppendKeepsValid(blockHash: Header -> string, chain: seq<Block>, b: Block)
    requires |chain| > 0 && ChainValid(blockHash, chain)
    requires b.previousHash == chain[|chain| - 1].hash && b.hash == HashBlock(blockHash, b)
    ensures ChainValid(blockHash, chain + [b])
  {
    var longer := chain + [b];
    forall i | 1 <= i < |longer| ensures LinkValid(blockHash, longer, i) {
      if i < |chain| {
        assert LinkValid(blockHash, chain, i);
      }
    }
  }

  /** The ledger held in blockchain/blockchain.json. */
  class BlockchainVerifier {
    /** SHA-256 over the sorted-key JSON of a block without its `hash`. */
    const blockHash: Header -> string
    var chain: seq<Block>

    predicate Valid()
      reads this
    {
      |chain| > 0
    }

    /** A fresh ledger: `_initialize_blockchain`, run when no file exists. */
    constructor Init(blockHash: Header -> string, now: string)
      ensures this.blockHash == blockHash && Valid()
      ensures chain == [Genesis(blockHash, now)]
      ensures ChainValid(blockHash, chain)
    {
      this.blockHash := blockHash;
      chain := [Genesis(blockHash, now)];
    }

    /** A ledger loaded from an existing file; the file is taken as given. */
    constructor Load(blockHash: Header -> string, stored: seq<Block>)
      requires |stored| > 0
      ensures this.blockHash == blockHash && Valid() && chain == stored
    {
      this.blockHash := blockHash;
      chain := stored;
    }

    /** `_create_block`: the next block after the last one, with the least
      nonce that gives its hash the required prefix. */
    method CreateBlock(data: Payload, now: string) returns (b: Block)
      requires Valid()
      requires Mineable(blockHash, NextHeader(chain[|chain| - 1], data, now))
      ensures b.index == chain[|chain| - 1].index + 1 && b.previousHash == chain[|chain| - 1].hash
      ensures b.timestamp == now && b.data == data
      ensures b.hash == HashBlock(blockHash, b) && MeetsDifficulty(b.hash)
      ensures b.nonce >= 0 && NoSmallerSolution(blockHash, NextHeader(chain[|chain| - 1], data, now), b.nonce)
    {
      var template := NextHeader(chain[|chain| - 1], data, now);
      var nonce, hash := Mine(blockHash, template);
      b := WithHash(template.(nonce := nonce), hash);
    }

    /** `add_transaction`: appends exactly one new block and returns it; the
      earlier blocks are untouched and a valid chain stays valid. */
    method AddTransaction(data: Payload, now: string) returns (b: Block)
      requires Valid()
      requires Mineable(blockHash, NextHeader(chain[|chain| - 1], data, now))
      modifies this
      ensures Valid() && chain == old(chain) + [b]
      ensures b.index == old(chain)[|old(chain)| - 1].index + 1 && b.data == data && b.timestamp == now
      ensures b.previousHash == old(chain)[|old(chain)| - 1].hash
      ensures b.hash == HashBlock(blockHash, b) && MeetsDifficulty(b.hash)
      ensures ChainValid(blockHash, old(chain)) ==> ChainValid(blockHash, chain)
    {
      b := CreateBlock(data, now);
      if ChainValid(blockHash, chain) {
        AppendKeepsValid(blockHash, chain, b);
      }
      chain := chain + [b];
    }

    /** `verify_chain`. */
    method VerifyChain() returns (ok: bool)
      ensures ok == ChainValid(blockHash, chain)
    {
      var i := 1;
      while i < |chain|
        invariant 1 <= i
        invariant forall j :: 1 <= j < i && j < |chain| ==> LinkValid(blockHash, chain, j)
      {
        var current, previous := chain[i], chain[i - 1];
        if current.hash != HashBlock(blockHash, current) {
          assert !LinkValid(blockHash, chain, i);
          return false;
        }
        if current.previousHash != previous.hash {
          assert !LinkValid(blockHash, chain, i);
          return false;
        }
        i := i + 1;
      }
      return true;
    }
  }

  // ---------------------------------------------------------------------------
  // Trust IDs
  // ---------------------------------------------------------------------------

  /** Python's `str(n)` for an integer. */
  function Decimal(n: int): string
    decreases if n < 0 then 1 - n else n
  {
    if n < 0 then "-" + Decimal(-n)
    else if n < 10 then [('0' as int + n) as char]
    else Decimal(n / 10) + [('0' as int + n % 10) as char]
  }

  /** How a value appears inside an f-string. */
  function Format(v: Value): string
  {
    match v
    case Str(s) => s
    case Num(n) => Decimal(n)
  }

  /** The keccak preimage `f"{phone}:{timestamp}:{salt}"`. */
  function TidPreimage(phone: Value, timestamp: Value, salt: Value): string
  {
    Format(phone) + ":" + Format(timestamp) + ":" + Format(salt)
  }

  /** The data dictionary of a new Trust ID block. */
  function TrustIdData(sha256: string -> string, phone: string, aadhaar: string, timestamp: int, salt: string): Payload
  {
    Dict(map[
      "phone" := Str(phone),
      "aadhaar_hash" := Str(if aadhaar != "" then sha256(aadhaar) else ""),
      "timestamp" := Num(timestamp),
      "salt" := Str(salt)])
  }

  /** Python's `s[:16]`. */
  function Prefix16(s: string): (p: string)
    ensures |p| == if |s| < 16 then |s| else 16
    ensures p <= s
  {
    if |s| < 16 then s else s[..16]
  }

  /** Outcome of the search loop of `verify_trust_id`. A dictionary with a
      `phone` key but no `timestamp` or `salt` raises KeyError, which the
      enclosing handler turns into False. */
  datatype Search = Found | NotFound | Raised

  /** What one block contributes to the search. */
  function ExamineBlock(keccak: string -> string, b: Block, tidHash: string): Search
  {
    if b.index == 0 then NotFound
    else match b.data
      case Text(_) => NotFound
      case Dict(e) =>
        if "phone" !in e then NotFound
        else if "timestamp" !in e || "salt" !in e then Raised
        else if keccak(TidPreimage(e["phone"], e["timestamp"], e["salt"])) == tidHash then Found
        else NotFound
  }

  /** The search loop of `verify_trust_id`, block by block in chain order. */
  function SearchTid(keccak: string -> string, chain: seq<Block>, tidHash: string): Search
  {
    if |chain| == 0 then NotFound
    else match ExamineBlock(keccak, chain[0], tidHash)
      case NotFound => SearchTid(keccak, chain[1..], tidHash)
      case outcome => outcome
  }

  /** `verify_trust_id`: False when the chain fails `verify_chain`; otherwise
      True exactly when the search meets a non-genesis block whose data recreates
      the Trust ID hash before any malformed Trust ID record. */
  method VerifyTrustId(ledger: BlockchainVerifier, keccak: string -> string, tidHash: string) returns (ok: bool)
    ensures ok <==> ChainValid(ledger.blockHash, ledger.chain) && SearchTid(keccak, ledger.chain, tidHash) == Found
  {
    var valid := ledger.VerifyChain();
    if !valid {
      return false;
    }
    var chain := ledger.chain;
    var i := 0;
    while i < |chain|
      invariant 0 <= i <= |chain|
      invariant SearchTid(keccak, chain, tidHash) == SearchTid(keccak, chain[i..], tidHash)
    {
      assert chain[i..][1..] == chain[i + 1..];
      var outcome := ExamineBlock(keccak, chain[i], tidHash);
      if outcome == Found {
        return true;
      } else if outcome == Raised {
        return false;
      }
      i := i + 1;
    }
    return false;
  }

  /** When the search over the old chain did not raise, it finds a block that
      is appended with matching Trust ID data. */
  lemma {:induction false} SearchFindsAppended(keccak: string -> string, chain: seq<Block>, b: Block, tidHash: string)
    requires SearchTid(keccak, chain, tidHash) != Raised
    requires ExamineBlock(keccak, b, tidHash) == Found
    ensures SearchTid(keccak, chain + [b], tidHash) == Found
  {
    if |chain| == 0 {
      assert [b][1..] == [];
    } else {
      assert (chain + [b])[1..] == chain[1..] + [b];
      if ExamineBlock(keccak, chain[0], tidHash) == NotFound {
        SearchFindsAppended(keccak, chain[1..], b, tidHash);
      }
    }
  }

  /** `create_trust_id`'s result: the keccak Trust ID hash and a stand-in IPFS id. */
  datatype TrustId = TrustId(tidHash: string, ipfsCid: string)

  /** `create_trust_id`. The clock (`now`, the block time; `epochSeconds`, the
      Trust ID time) and the random salt are parameters; `saved` says whether
      writing the ledger file succeeds. On success the ledger gains one block
      holding the Trust ID data and the IPFS id is the first 16 characters of
      its hash; on failure the result is `(SHA256(phone), "error")`. */
  method CreateTrustId(
    ledger: BlockchainVerifier, sha256: string -> string, keccak: string -> string,
    phone: string, aadhaar: string, now: string, epochSeconds: int, salt: string, saved: bool)
    returns (tid: TrustId)
    requires ledger.Valid()
    requires Mineable(ledger.blockHash,
      NextHeader(ledger.chain[|ledger.chain| - 1], TrustIdData(sha256, phone, aadhaar, epochSeconds, salt), now))
    modifies ledger
    ensures ledger.Valid()
    ensures !saved ==> ledger.chain == old(ledger.chain) && tid == TrustId(sha256(phone), "error")
    ensures saved ==> |ledger.chain| == |old(ledger.chain)| + 1
    ensures saved ==> ledger.chain[..|old(ledger.chain)|] == old(ledger.chain)
    ensures saved ==> var b := ledger.chain[|ledger.chain| - 1];
      && b.data == TrustIdData(sha256, phone, aadhaar, epochSeconds, salt)
      && b.index == old(ledger.chain)[|old(ledger.chain)| - 1].index + 1
      && b.previousHash == old(ledger.chain)[|old(ledger.chain)| - 1].hash
      && b.hash == HashBlock(ledger.blockHash, b)
      && tid == TrustId(keccak(TidPreimage(Str(phone), Num(epochSeconds), Str(salt))), Prefix16(b.hash))
    ensures ChainValid(ledger.blockHash, old(ledger.chain)) ==> ChainValid(ledger.blockHash, ledger.chain)
  {
    if !saved {
      return TrustId(sha256(phone), "error");
    }
    var data := TrustIdData(sha256, phone, aadhaar, epochSeconds, salt);
    var b := ledger.AddTransaction(data, now);
    var tidHash := keccak(TidPreimage(Str(phone), Num(epochSeconds), Str(salt)));
    tid := TrustId(tidHash, Prefix16(b.hash));
  }

  /** A Trust ID just issued on a valid chain verifies: the new block is linked
      and hashed correctly, and its data recreates the Trust ID hash. */
  lemma IssuedTrustIdVerifies(
    blockHash: Header -> string, keccak: string -> string, sha256: string -> string,
    chain: seq<Block>, b: Block, phone: string, aadhaar: string, epochSeconds: int, salt: string)
    requires |chain| > 0 && ChainValid(blockHash, chain)
    requires SearchTid(keccak, chain, keccak(TidPreimage(Str(phone), Num(epochSeconds), Str(salt)))) != Raised
    requires b.index != 0 && b.data == TrustIdData(sha256, phone, aadhaar, epochSeconds, salt)
    requires b.previousHash == chain[|chain| - 1].hash && b.hash == HashBlock(blockHash, b)
    ensures ChainValid(blockHash, chain + [b])
    ensures SearchTid(keccak, chain + [b], keccak(TidPreimage(Str(phone), Num(epochSeconds), Str(salt)))) == Found
  {
    var tidHash := keccak(TidPreimage(Str(phone), Num(epochSeconds), Str(salt)));
    AppendKeepsValid(blockHash, chain, b);
    assert ExamineBlock(keccak, b, tidHash) == Found;
    SearchFindsAppended(keccak, chain, b, tidHash);
  }
}
