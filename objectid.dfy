/** Document ids: twelve-byte ObjectIds, written as 24 hexadecimal characters. */
module ObjectIds {
  import opened Base
  import opened Text

  datatype ObjectId = ObjectId(bytes: seq<byte>)

  /** A well-formed id carries exactly twelve bytes. */
  predicate WellFormed(id: ObjectId) { |id.bytes| == 12 }

  /** The pattern `^[0-9a-fA-F]{24}$`. */
  predicate IsObjectIdString(s: string) {
    |s| == 24 && forall k :: 0 <= k < |s| ==> IsHexChar(s[k])
  }

  /** The canonical text of an id: lower-case hex, as `id.toString()` gives it. */
  function ToHexString(id: ObjectId): (s: string)
    ensures WellFormed(id) ==> IsObjectIdString(s)
  {
    HexEncode(id.bytes)
  }

  /** The cast applied to a string id by `findById`, `findByIdAndUpdate`, `findByIdAndDelete` and
      `new ObjectId(s)`: 24 hex characters of either case give the id, anything else is a cast error. */
  function CastObjectId(s: string): (r: Option<ObjectId>)
    ensures r.Some? ==> WellFormed(r.value)
  {
    if |s| == 24 then
      match HexDecode(s)
      case Some(b) => Some(ObjectId(b))
      case None => None
    else None
  }

  /** The cast succeeds exactly on the strings the id pattern accepts. */
  lemma CastSucceedsIff(s: string)
    ensures CastObjectId(s).Some? <==> IsObjectIdString(s)
  {
    HexDecodeSucceedsIff(s);
  }

  /** Casting the canonical text of an id gives the id back. */
  lemma CastOfHexString(id: ObjectId)
    requires WellFormed(id)
    ensures CastObjectId(ToHexString(id)) == Some(id)
  {
    HexRoundTrip(id.bytes);
  }
}
