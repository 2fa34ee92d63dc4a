/**
 * The forest/node domain of the Go server: enum constants, the value types (users, events,
 * entries, attachments) and the mutable `Node`, whose children form the forest.
 * A `*time.Time` is an `Option<int>` of ticks and `time.Now()` is passed in by the caller.
 */
module Core {
  import opened Wrappers
  import Strings

  /** `Permission` is a Go `int`; the named levels are the first three values of an iota. */
  type Permission = int
  const ReadPermission: Permission := 0
  const WritePermission: Permission := 1
  const AdminPermission: Permission := 2

  /** `NodeType` is a Go `int`. */
  type NodeType = int
  const LeafNode: NodeType := 0
  const BranchNode: NodeType := 1

  /** `EventStatus` is a Go `string`. */
  type EventStatus = string
  const EventPending: EventStatus := "pending"
  const EventOngoing: EventStatus := "ongoing"
  const EventFinished: EventStatus := "finished"

  /** A Go `interface{}` as it travels through JSON: the content of entries and metadata values. */
  datatype Dyn =
    | DNil
    | DBool(b: bool)
    | DNum(n: int)
    | DStr(s: string)
    | DList(items: seq<Dyn>)
    | DObj(fields: map<string, Dyn>)

  /** A `map[string]interface{}`, which may be the nil map. */
  type Metadata = Option<map<string, Dyn>>

  /** `metadata[key].(string)`: the string stored under `key`, if there is one. */
  function StringField(metadata: Metadata, key: string): (r: Option<string>)
    ensures r.Some? <==> metadata.Some? && key in metadata.value && metadata.value[key].DStr?
    ensures r.Some? ==> metadata.value[key] == DStr(r.value)
  {
    if metadata.Some? && key in metadata.value && metadata.value[key].DStr? then
      Some(metadata.value[key].s)
    else None
  }

  datatype Attachment = Attachment(
    id: string, name: string, mimeType: string, size: int, hash: string,
    data: seq<Strings.Byte>, uploadedBy: string, uploadedAt: int)

  datatype User = User(
    id: string, username: string, email: string, password: string,
    organization: string, phone: string, permissions: seq<Permission>)

  /** An `Entry`; `attachments` is the field that the attachment code reads. */
  datatype Entry = Entry(
    content: Dyn, metadata: Metadata, userId: string, timestamp: int,
    attachments: seq<Attachment>)

  datatype Event = Event(
    startTime: Option<int>, endTime: Option<int>, entries: seq<Entry>,
    metadata: Metadata, status: EventStatus,
    category: string, frequency: string, pattern: string)

  /** The errors the node operations return, one constructor per message. */
  datatype Error =
    | NonLeafEvent                       // cannot add event to non-leaf node
    | NonLeafPlan                        // cannot plan event for non-leaf node
    | EventNotFound(eventId: string)     // event not found: <id>
    | EndNotStarted                      // cannot end event that hasn't started
    | AppendFinished                     // cannot append to finished event
    | AppendNotStarted                   // cannot append to event that hasn't started
    | AlreadyHasPermission(username: string, permission: Permission)
    | NodeNotFound(key: string)          // node not found: <id or path>
    | UserNotFound(userId: string)
    | EventsNotFound(plannedId: string, actualId: string)
    | DifferencesFound(differences: seq<Difference>)
    | NilStartTime                       // EndTime set without StartTime: a nil dereference
    | FileTooLarge(size: int, maxSize: int)
    | ReadFailed
    | AttachmentNotFound(attachmentId: string)
    | InvalidEntryIndex(index: int)

  /** One line of the report that `CompareEvents` builds. */
  datatype Difference =
    | StartTimeNil                                  // one start time is nil, the other is not
    | StartTimeValue(planned: int, actual: int)
    | EndTimeNil
    | EndTimeValue(planned: int, actual: int)
    | StatusDiffers(plannedStatus: EventStatus, actualStatus: EventStatus)
    | MetadataDiffers
    | EntriesCountDiffers(plannedCount: int, actualCount: int)
    | EntryDiffers(index: int)

  /**
   * A node of the forest. `repr` is the ghost footprint of the subtree below it; `Valid`
   * says the children form a finite tree, which is what the recursive walks rely on.
   */
  class Node {
    var id: string
    var nodeType: NodeType
    var name: string
    var parents: Option<map<string, string>>
    var children: map<string, Node>
    var events: map<string, Event>
    var plannedEvents: map<string, Event>
    var users: seq<User>
    var entries: seq<Entry>
    var attachments: map<string, Attachment>
    ghost var repr: set<Node>

    ghost predicate Valid()
      reads this`children, this`repr, repr`children, repr`repr
      decreases repr
    {
      this in repr &&
      forall c :: c in children.Values ==>
        c in repr && c.repr < repr && this !in c.repr && c.Valid()
    }

    /** Some node of the subtree carries `key` as its ID. */
    ghost predicate HasId(key: string)
      requires Valid()
      reads repr
      decreases repr
    {
      id == key || exists c :: c in children.Values && c.HasId(key)
    }

    /** `NewNode`: the ID comes from the clock in the source and is a parameter here. */
    constructor NewNode(nodeId: string, nodeType: NodeType, name: string)
      ensures this.id == nodeId && this.nodeType == nodeType && this.name == name
      ensures parents == Some(map[]) && children == map[]
      ensures events == map[] && plannedEvents == map[] && attachments == map[]
      ensures users == [] && entries == []
      ensures Valid() && repr == {this}
    {
      id := nodeId;
      this.nodeType := nodeType;
      this.name := name;
      parents := Some(map[]);
      children := map[];
      events := map[];
      plannedEvents := map[];
      users := [];
      entries := [];
      attachments := map[];
      repr := {this};
    }
  }

  /** `NewForest`: the root of a forest is a branch node. */
  method NewForest(nodeId: string, rootName: string) returns (n: Node)
    ensures fresh(n) && n.nodeType == BranchNode && n.name == rootName && n.id == nodeId
    ensures n.children == map[] && n.events == map[] && n.users == [] && n.entries == []
    ensures n.Valid() && n.repr == {n}
  {
    n := new Node.NewNode(nodeId, BranchNode, rootName);
  }
}
