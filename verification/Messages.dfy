/** What passes between the fan-out and the dispatcher. */
module Messages {
  datatype Value = Text(text: string) | List(items: seq<string>) | Other

  type Payload = map<string, Value>

  datatype Message = Message(oid: string, event: string, data: Payload)

  datatype Envelope = Envelope(oid: string, events: map<string, seq<Payload>>)
}
