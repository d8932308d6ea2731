/** The CRM records a portal holds, as the agent's tools see them: properties are stored and
    returned as text, and an update sets exactly the properties it names. */
module Records {
  import opened Wrappers

  type RecordId = string
  type Prop = string

  /** A JSON value given to a tool: null, text, or any other value by its `str()`. */
  datatype Value = Null | Text(s: string) | Other(repr: string)

  type Values = map<Prop, Value>
  type Record = map<Prop, string>
  type Portal = map<RecordId, Record>

  /** `None if v is None else str(v)`: both how HubSpot stores a value and how
      `_pattern_value_eq` normalises it. */
  function Render(v: Value): Option<string> {
    match v
    case Null => None
    case Text(s) => Some(s)
    case Other(repr) => Some(repr)
  }

  /** `values.get(k)`, normalised. */
  function Get(values: Values, k: Prop): Option<string> {
    if k in values then Render(values[k]) else None
  }

  /** The stored value of a property; an unset property reads as null. */
  function Lookup(r: Record, k: Prop): Option<string> {
    if k in r then Some(r[k]) else None
  }

  /** A PATCH: null clears a property. */
  function Patch(r: Record, changes: Values): (r': Record)
    ensures forall k :: Lookup(r', k) == if k in changes then Render(changes[k]) else Lookup(r, k)
  {
    map k | k in r.Keys + changes.Keys && (k in changes ==> Render(changes[k]).Some?) ::
      if k in changes then Render(changes[k]).value else r[k]
  }

  lemma SameRecord(r: Record, r': Record)
    requires forall k :: Lookup(r, k) == Lookup(r', k)
    ensures r == r'
  {
    forall k
      ensures k in r <==> k in r'
      ensures k in r ==> r[k] == r'[k]
    {
      assert Lookup(r, k) == Lookup(r', k);
    }
  }

  /** How a call to HubSpot ends: done, with an error envelope, or with a raised exception. */
  datatype Reply = Done | Error(text: string) | Raised

  /** The portal behind the tools. A failed call changes nothing. */
  class Crm {
    var portal: Portal

    constructor (portal: Portal)
      ensures this.portal == portal
    {
      this.portal := portal;
    }

    /** `hubspot_update_object`, answering as it may. */
    method UpdateObject(id: RecordId, changes: Values) returns (reply: Reply)
      modifies this
      ensures reply.Done? ==> id in old(portal) && portal == old(portal)[id := Patch(old(portal)[id], changes)]
      ensures !reply.Done? ==> portal == old(portal)
    {
      if * {
        reply := Raised;
      } else if * {
        reply := Error("HTTP 500");
      } else if id !in portal {
        reply := Error("HTTP 404");
      } else {
        portal := portal[id := Patch(portal[id], changes)];
        reply := Done;
      }
    }
  }
}
