/** jcompilo's Resource: an immutable (name, last-modified, bytes) value. */
module Resource {

  newtype byte = x: int | 0 <= x < 256

  /** AResource; `modified` is the java.util.Date as milliseconds since the epoch. */
  datatype Resource = AResource(name: string, modified: int, bytes: seq<byte>)

  /** constructors.resource(name, modified, bytes): the accessors give back exactly what was passed in. */
  function MakeResource(name: string, modified: int, bytes: seq<byte>): (r: Resource)
    ensures r.name == name && r.modified == modified && r.bytes == bytes
  {
    AResource(name, modified, bytes)
  }

  /** functions.bytes(): the function that reads a resource's bytes. */
  function BytesFunction(): (f: Resource -> seq<byte>)
    ensures forall r :: f(r) == r.bytes
  {
    (r: Resource) => r.bytes
  }
}
