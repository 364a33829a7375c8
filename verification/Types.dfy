/**
 The values that pass between the coordinator, the data nodes and the clients.

 A chunk id is the number N behind the printed form "chunk_N"; module ChunkPath shows that
 the printed form and the path on a data node's disk determine N.
 */
module Types {
  newtype byte = x: int | 0 <= x < 256
  newtype int32 = x: int | -0x8000_0000 <= x < 0x8000_0000

  type Bytes = seq<byte>
  type Name = string
  type NodeId = int
  type ChunkId = nat

  datatype Option<+T> = None | Some(value: T)

  /** Where a data node listens. */
  datatype Addr = Addr(host: string, port: int)

  /** One chunk file on one data node. */
  datatype Loc = Loc(addr: Addr, chunk: ChunkId)

  datatype ChunkInfo = ChunkInfo(chunkId: ChunkId, nodeIds: seq<NodeId>, replicationFactor: int)

  datatype FileMeta = FileMeta(size: nat, chunkSize: nat, chunks: seq<ChunkInfo>)

  datatype Status = Ok | AlreadyExists | InvalidArgument | NotFound | Internal

  const REPLICATION_FACTOR := 3

  /** Chunk numbers are parsed with a 32-bit conversion on the data node. */
  const CHUNK_ID_LIMIT := 0x8000_0000

  /** The chunk counter and the store's statistics are unsigned 64-bit integers. */
  const UINT64_SPAN := 0x1_0000_0000_0000_0000

  function Min(a: int, b: int): (least: int)
    ensures least <= a && least <= b && (least == a || least == b)
  {
    if a < b then a else b
  }

  function Flatten<T>(parts: seq<seq<T>>): seq<T> {
    if |parts| == 0 then [] else parts[0] + Flatten(parts[1..])
  }

  lemma {:induction false} FlattenAppend<T>(parts: seq<seq<T>>, last: seq<T>)
    ensures Flatten(parts + [last]) == Flatten(parts) + last
  {
    if |parts| == 0 {
      assert (parts + [last])[1..] == [];
    } else {
      assert (parts + [last])[1..] == parts[1..] + [last];
      FlattenAppend(parts[1..], last);
    }
  }
}
