/** Which price partition a symbol belongs to, and which shard drives a partition. */
module Routing {
  import opened Lexicographic

  function Byte(b: int): bv32 {
    (b % 256) as bv32
  }

  /** One step of FNV-1a, in 32-bit arithmetic. */
  function Mix(h: bv32, b: int): bv32 {
    (h ^ Byte(b)) * 16777619
  }

  function Hash(bytes: seq<int>): bv32 {
    if bytes == [] then 2166136261 else Mix(Hash(bytes[..|bytes| - 1]), bytes[|bytes| - 1])
  }

  method HashOf(bytes: seq<int>) returns (h: bv32)
    ensures h == Hash(bytes)
  {
    hide Mix;
    h := 2166136261;
    var i := 0;
    while i < |bytes|
      invariant 0 <= i <= |bytes|
      invariant h == Hash(bytes[..i])
    {
      h := Mix(h, bytes[i]);
      assert bytes[..i + 1][..i] == bytes[..i];
      i := i + 1;
    }
    assert bytes[..i] == bytes;
  }

  /** Published values of 32-bit FNV-1a. */
  lemma FnvVectors()
    ensures Hash([]) == 0x811c9dc5
    ensures Hash(Codes("a")) == 0xe40c292c
  {
    assert Codes("a") == [97] && [97][..0] == [];
    assert Mix(0x811c9dc5, 97) == 0xe40c292c;
  }

  /** Symbols are ASCII, so their characters are their bytes. */
  function Route(shards: nat, symbol: string): (r: nat)
    requires shards > 0
    ensures r < shards
  {
    (Hash(Codes(symbol)) as nat) % shards
  }

  datatype Destination<T> = NoPartitions | To(partition: T)

  /** Every symbol has one partition among those configured, and it depends on nothing else. */
  method PricePartitionForSymbol<T>(partitions: seq<T>, symbol: string) returns (r: Destination<T>)
    ensures r == if partitions == [] then NoPartitions else To(partitions[Route(|partitions|, symbol)])
  {
    if partitions == [] {
      return NoPartitions;
    }
    var h := HashOf(Codes(symbol));
    hide Hash;
    return To(partitions[(h as nat) % |partitions|]);
  }

  function ShardFor(pid: seq<int>, shards: int): (r: nat)
    ensures shards >= 1 ==> r < shards
  {
    if shards <= 1 then 0 else (Hash(pid) as nat) % shards
  }

  /** A partition is driven by the one shard its id hashes to; without a choice, by shard zero. */
  method WorkerShardFor(pid: seq<int>, shards: int) returns (shard: nat)
    ensures shard == ShardFor(pid, shards) && (shards >= 1 ==> shard < shards)
  {
    if shards <= 1 {
      return 0;
    }
    var h := HashOf(pid);
    hide Hash;
    return (h as nat) % shards;
  }
}
