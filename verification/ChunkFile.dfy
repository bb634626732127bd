/** The chunk file: the deltas of the creates, recovers and updates of a batch, by position. */
module ChunkFile {
  import opened Wrappers
  import opened Models
  import opened Operations
  import opened Traversal

  function CreateDeltas(operations: seq<CreateOperation>): seq<Option<Delta>> {
    seq(|operations|, i requires 0 <= i < |operations| => operations[i].delta)
  }

  function RecoverDeltas(operations: seq<RecoverOperation>): seq<Option<Delta>> {
    seq(|operations|, i requires 0 <= i < |operations| => operations[i].delta)
  }

  function UpdateDeltas(operations: seq<UpdateOperation>): seq<Option<Delta>> {
    seq(|operations|, i requires 0 <= i < |operations| => operations[i].delta)
  }

  /** `None` if no operation of the batch carries a delta. */
  function CreateBuffer(
    ctx: Context, creates: seq<CreateOperation>, recovers: seq<RecoverOperation>, updates: seq<UpdateOperation>)
    : Option<Buffer>
  {
    var deltas := CreateDeltas(creates) + RecoverDeltas(recovers) + UpdateDeltas(updates);
    if deltas == [] then None else Some(ctx.codec.encodeChunk(ChunkFileModel(Some(deltas))))
  }

  function CheckedDelta(p: Primitives, delta: Option<Delta>): Result<Delta, Error> {
    var _ :- CheckSizedDelta(p, delta);
    Ok(delta.value)
  }

  function DeltaParser(p: Primitives): ElementParser<Option<Delta>, Delta, Error> {
    (i: nat, delta: Option<Delta>) => CheckedDelta(p, delta)
  }

  /** A missing list of deltas and a `null` delta make the parser throw an exception of its own. */
  function Parsed(ctx: Context, buffer: Buffer): Result<seq<Delta>, Error> {
    var model :- ctx.codec.decodeChunk(buffer);
    if model.deltas.None? || None in model.deltas.value then Err(Unexpected)
    else ParseAll(DeltaParser(ctx.primitives), model.deltas.value)
  }

  method Parse(ctx: Context, buffer: Buffer) returns (r: Result<seq<Delta>, Error>)
    ensures r == Parsed(ctx, buffer)
  {
    var model :- ctx.codec.decodeChunk(buffer);
    if model.deltas.None? || None in model.deltas.value {
      return Err(Unexpected);
    }
    var deltas := model.deltas.value;
    ghost var parser := DeltaParser(ctx.primitives);
    var checked: seq<Delta> := [];
    for i := 0 to |deltas|
      invariant ParseAll(parser, deltas[..i]) == Ok(checked)
    {
      ParseAllStep(parser, deltas, i);
      var check := CheckedDelta(ctx.primitives, deltas[i]);
      if check.Err? {
        FirstFailureDecides(parser, deltas, i + 1);
        return Err(check.error);
      }
      checked := checked + [check.value];
    }
    assert deltas[..|deltas|] == deltas;
    return Ok(checked);
  }
}
