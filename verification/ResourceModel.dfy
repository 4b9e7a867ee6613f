/** Metadata that the placement driver hands out, and the events built from it
    (components/model/src/range/mod.rs, resource.rs, stream/mod.rs). */
module ResourceModel {
  import opened Prelude
  import opened ObjectChain

  datatype OffloadOwner = OffloadOwner(serverId: int, epoch: nat)

  datatype RangeMetadata = RangeMetadata(
    streamId: nat, index: nat, epoch: nat, start: nat, end: Option<nat>,
    replica: seq<int>, replicaCount: nat, ackCount: nat, offloadOwner: Option<OffloadOwner>)
  {
    predicate HeldBy(serverId: int) { serverId in replica }

    predicate Contains(offset: nat) {
      start <= offset && (end.Some? ==> offset < end.value)
    }

    function TrimStart(offset: nat): RangeMetadata { this.(start := offset) }

    function SetEnd(offset: nat): RangeMetadata { this.(end := Some(offset)) }
  }

  datatype StreamMetadata = StreamMetadata(streamId: nat, startOffset: nat)

  datatype Resource =
    | NoResource
    | RangeServerResource(serverId: int)
    | StreamResource(stream: StreamMetadata)
    | RangeResource(range: RangeMetadata)
    | ObjectResource(obj: ObjectMetadata)

  datatype EventType = NoEvent | Listed | ListFinished | Added | Modified | Deleted | Reset

  datatype ResourceEvent = ResourceEvent(eventType: EventType, resource: Resource)

  type RangeId = (nat, nat)

  datatype RangeEvent =
    | OffsetMove(range: RangeId, startOffset: nat)
    | Offloaded(range: RangeId)
    | Del(range: RangeId)
}
