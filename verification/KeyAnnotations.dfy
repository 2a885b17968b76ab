/** The comma separated list of wrapped layer keys (ocicrypt-rs/src/encryption.rs). */
module KeyAnnotations {
  import opened Common
  import opened Text

  /** What a key wrapper makes of a packet; any function. */
  type Unwrap = seq<byte> -> Result<seq<byte>>

  /** `pre_wrap_key`, given what the key wrapper produced. */
  method PreWrapKey(annotations: string, wrapped: Result<seq<byte>>) returns (r: Result<string>)
    ensures r == Wrapped(annotations, wrapped)
    ensures r.Ok? <==> wrapped.Ok? && |wrapped.value| > 0
  {
    if wrapped.Err? || wrapped.value == [] { return Err; }
    var encoded := Base64Encode(wrapped.value);
    if annotations == "" { return Ok(encoded); }
    var list := annotations;
    list := list + ",";
    list := list + encoded;
    r := Ok(list);
  }

  function Wrapped(annotations: string, wrapped: Result<seq<byte>>): Result<string> {
    if wrapped.Err? || wrapped.value == [] then Err
    else if annotations == "" then Ok(Base64Encode(wrapped.value))
    else Ok(annotations + "," + Base64Encode(wrapped.value))
  }

  method PreUnwrapKey(unwrap: Unwrap, annotations: string) returns (r: Result<seq<byte>>)
    ensures r == Unwrapped(unwrap, annotations)
  {
    if annotations == "" { return Err; }
    var parts := SplitOn(annotations, ',');
    var i := 0;
    while i < |parts|
      invariant 0 <= i <= |parts|
      invariant FirstUnwrapped(unwrap, parts) == FirstUnwrapped(unwrap, parts[i..])
    {
      var packet := Base64Decode(parts[i]);
      if packet.Err? { return Err; }
      var attempt := unwrap(packet.value);
      if attempt.Ok? { return attempt; }
      assert parts[i..][1..] == parts[i + 1..];
      i := i + 1;
    }
    r := Err;
  }

  function Unwrapped(unwrap: Unwrap, annotations: string): Result<seq<byte>> {
    if annotations == "" then Err else FirstUnwrapped(unwrap, SplitOn(annotations, ','))
  }

  /** A part that is no base64 ends the search. */
  function FirstUnwrapped(unwrap: Unwrap, parts: seq<string>): Result<seq<byte>> {
    if parts == [] then Err
    else
      match Base64Decode(parts[0])
      case Err => Err
      case Ok(packet) => if unwrap(packet).Ok? then unwrap(packet) else FirstUnwrapped(unwrap, parts[1..])
  }

  /** The list after wrapping `packets` one after the other. */
  function Accumulated(packets: seq<seq<byte>>): string
    requires forall i :: 0 <= i < |packets| ==> packets[i] != []
  {
    if packets == [] then ""
    else
      var n := |packets| - 1;
      match Wrapped(Accumulated(packets[..n]), Ok(packets[n]))
      case Ok(list) => list
  }

  function Encoded(packets: seq<seq<byte>>): (r: seq<string>)
    ensures |r| == |packets|
  {
    if packets == [] then [] else Encoded(packets[..|packets| - 1]) + [Base64Encode(packets[|packets| - 1])]
  }

  lemma {:induction false} EncodedAt(packets: seq<seq<byte>>, i: nat)
    requires i < |packets|
    ensures Encoded(packets)[i] == Base64Encode(packets[i])
  {
    if i < |packets| - 1 { EncodedAt(packets[..|packets| - 1], i); }
  }

  lemma {:induction false} SplitIsEncoded(packets: seq<seq<byte>>)
    requires packets != [] && forall i :: 0 <= i < |packets| ==> packets[i] != []
    ensures Accumulated(packets) != "" && SplitOn(Accumulated(packets), ',') == Encoded(packets)
  {
    var n := |packets| - 1;
    var last := Base64Encode(packets[n]);
    SplitWhole(last, ',');
    if n == 0 {
      assert packets[..0] == [];
    } else {
      SplitIsEncoded(packets[..n]);
      SplitAppend(Accumulated(packets[..n]), ',', last);
    }
  }

  /** Splitting the accumulated list on commas and decoding the parts gives exactly the packets, in order. */
  lemma {:induction false} SplitGivesPackets(packets: seq<seq<byte>>)
    requires packets != [] && forall i :: 0 <= i < |packets| ==> packets[i] != []
    ensures var parts := SplitOn(Accumulated(packets), ',');
            |parts| == |packets| && forall i :: 0 <= i < |parts| ==> Base64Decode(parts[i]) == Ok(packets[i])
  {
    SplitIsEncoded(packets);
    forall i | 0 <= i < |packets| ensures Base64Decode(Encoded(packets)[i]) == Ok(packets[i]) {
      EncodedAt(packets, i);
      Base64RoundTrip(packets[i]);
    }
  }

  /** `k` is the first packet that unwraps. */
  predicate FirstToUnwrap(unwrap: Unwrap, packets: seq<seq<byte>>, k: nat) {
    k < |packets| && unwrap(packets[k]).Ok? && forall j :: 0 <= j < k ==> unwrap(packets[j]).Err?
  }

  lemma {:induction false} FirstOfParts(unwrap: Unwrap, parts: seq<string>, packets: seq<seq<byte>>, k: nat)
    requires |parts| == |packets| && forall i :: 0 <= i < |parts| ==> Base64Decode(parts[i]) == Ok(packets[i])
    requires FirstToUnwrap(unwrap, packets, k)
    ensures FirstUnwrapped(unwrap, parts) == unwrap(packets[k])
    decreases k
  {
    if k > 0 {
      assert unwrap(packets[0]).Err?;
      FirstOfParts(unwrap, parts[1..], packets[1..], k - 1);
    }
  }

  lemma {:induction false} NoneOfParts(unwrap: Unwrap, parts: seq<string>, packets: seq<seq<byte>>)
    requires |parts| == |packets| && forall i :: 0 <= i < |parts| ==> Base64Decode(parts[i]) == Ok(packets[i])
    requires forall k :: 0 <= k < |packets| ==> unwrap(packets[k]).Err?
    ensures FirstUnwrapped(unwrap, parts) == Err
  {
    if parts != [] { NoneOfParts(unwrap, parts[1..], packets[1..]); }
  }

  /** Unwrapping an accumulated list gives what the first packet that unwraps gives. */
  lemma {:induction false} UnwrapsFirstPossible(unwrap: Unwrap, packets: seq<seq<byte>>, k: nat)
    requires forall i :: 0 <= i < |packets| ==> packets[i] != []
    requires FirstToUnwrap(unwrap, packets, k)
    ensures Unwrapped(unwrap, Accumulated(packets)) == unwrap(packets[k])
  {
    SplitIsEncoded(packets);
    SplitGivesPackets(packets);
    FirstOfParts(unwrap, SplitOn(Accumulated(packets), ','), packets, k);
  }

  /** It fails if no packet unwraps. */
  lemma {:induction false} UnwrapsNothing(unwrap: Unwrap, packets: seq<seq<byte>>)
    requires forall i :: 0 <= i < |packets| ==> packets[i] != [] && unwrap(packets[i]).Err?
    ensures Unwrapped(unwrap, Accumulated(packets)) == Err
  {
    if packets != [] {
      SplitIsEncoded(packets);
      SplitGivesPackets(packets);
      NoneOfParts(unwrap, SplitOn(Accumulated(packets), ','), packets);
    }
  }

  lemma {:induction false} MorePartsKeepSuccess(unwrap: Unwrap, parts: seq<string>, more: seq<string>)
    requires FirstUnwrapped(unwrap, parts).Ok?
    ensures FirstUnwrapped(unwrap, parts + more) == FirstUnwrapped(unwrap, parts)
  {
    if unwrap(Base64Decode(parts[0]).value).Err? {
      assert (parts + more)[1..] == parts[1..] + more;
      MorePartsKeepSuccess(unwrap, parts[1..], more);
    }
  }

  /** Whatever is appended to a list, well formed or not, an earlier success stays the result. */
  lemma {:induction false} AppendingKeepsSuccess(unwrap: Unwrap, annotations: string, more: string)
    requires Unwrapped(unwrap, annotations).Ok?
    ensures Unwrapped(unwrap, annotations + "," + more) == Unwrapped(unwrap, annotations)
  {
    SplitAppend(annotations, ',', more);
    MorePartsKeepSuccess(unwrap, SplitOn(annotations, ','), SplitOn(more, ','));
  }

  /** Part `k` of the list is the first that unwraps, to this key, and all before it are base64 and do not unwrap. */
  predicate UnwrapsAt(unwrap: Unwrap, parts: seq<string>, k: nat, key: seq<byte>) {
    && k < |parts| && Base64Decode(parts[k]).Ok? && unwrap(Base64Decode(parts[k]).value) == Ok(key)
    && forall j :: 0 <= j < k ==> Base64Decode(parts[j]).Ok? && unwrap(Base64Decode(parts[j]).value).Err?
  }

  ghost predicate UnwrapsSomewhere(unwrap: Unwrap, parts: seq<string>, key: seq<byte>) {
    exists k :: UnwrapsAt(unwrap, parts, k, key)
  }

  lemma {:induction false} FirstUnwrappedIff(unwrap: Unwrap, parts: seq<string>, key: seq<byte>)
    ensures FirstUnwrapped(unwrap, parts) == Ok(key) <==> UnwrapsSomewhere(unwrap, parts, key)
  {
    if parts != [] {
      assert UnwrapsAt(unwrap, parts, 0, key) <==>
        Base64Decode(parts[0]).Ok? && unwrap(Base64Decode(parts[0]).value) == Ok(key);
      if Base64Decode(parts[0]).Ok? && unwrap(Base64Decode(parts[0]).value).Err? {
        FirstUnwrappedIff(unwrap, parts[1..], key);
        forall k: nat | k > 0 ensures UnwrapsAt(unwrap, parts, k, key) <==> UnwrapsAt(unwrap, parts[1..], k - 1, key) {
          assert forall j :: 0 < j < |parts| ==> parts[j] == parts[1..][j - 1];
          assert forall j :: 0 <= j < |parts| - 1 ==> parts[1..][j] == parts[j + 1];
        }
        if k: nat :| UnwrapsAt(unwrap, parts[1..], k, key) {
          assert UnwrapsAt(unwrap, parts, k + 1, key);
        }
      }
    }
  }

  /** For any text whatever: which key is unwrapped from it, if any. A part that is no base64 ends the search. */
  lemma {:induction false} UnwrapsIff(unwrap: Unwrap, annotations: string, key: seq<byte>)
    ensures Unwrapped(unwrap, annotations) == Ok(key) <==>
      annotations != "" && UnwrapsSomewhere(unwrap, SplitOn(annotations, ','), key)
  {
    FirstUnwrappedIff(unwrap, SplitOn(annotations, ','), key);
  }
}
