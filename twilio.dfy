/**
 * The address handling of src/services/twilioService.ts. Incoming webhooks carry the
 * sender as "whatsapp:+1555…"; outgoing messages are addressed the same way.
 */
module Twilio {
  import opened Wrappers

  const Prefix: string := "whatsapp:"

  predicate OccursAt(s: string, pattern: string, j: int)
  {
    0 <= j && j + |pattern| <= |s| && s[j..j + |pattern|] == pattern
  }

  /** `String.prototype.indexOf` for a string pattern: the first position where it occurs. */
  function IndexOf(s: string, pattern: string): (r: Option<nat>)
    ensures r.Some? ==> OccursAt(s, pattern, r.value)
    ensures r.Some? ==> forall j :: 0 <= j < r.value ==> !OccursAt(s, pattern, j)
    ensures r.None? ==> forall j :: !OccursAt(s, pattern, j)
    decreases |s|
  {
    if |s| < |pattern| then None
    else if s[..|pattern|] == pattern then Some(0)
    else
      var rest := IndexOf(s[1..], pattern);
      assert forall j :: 1 <= j && OccursAt(s, pattern, j) ==> OccursAt(s[1..], pattern, j - 1) by {
        forall j | 1 <= j && OccursAt(s, pattern, j)
          ensures OccursAt(s[1..], pattern, j - 1)
        {
          assert s[1..][j - 1..j - 1 + |pattern|] == s[j..j + |pattern|];
        }
      }
      if rest.None? then None
      else
        assert s[1..][rest.value..rest.value + |pattern|] == s[rest.value + 1..rest.value + 1 + |pattern|];
        Some(rest.value + 1)
  }

  /** `phoneNumber.replace('whatsapp:', '')`: removes the first occurrence of the prefix only. */
  function FormatPhoneNumber(phoneNumber: string): string
  {
    match IndexOf(phoneNumber, Prefix)
    case None => phoneNumber
    case Some(k) => phoneNumber[..k] + phoneNumber[k + |Prefix|..]
  }

  /** The `to` address `sendMessage` hands to the Twilio client. */
  function WhatsAppAddress(to: string): (r: string)
    ensures |r| == |to| + |Prefix|
    ensures r[..|Prefix|] == Prefix && r[|Prefix|..] == to
  {
    Prefix + to
  }

  /** A sender address that does not contain the prefix is returned unchanged. */
  lemma NoPrefixUnchanged(phoneNumber: string)
    requires forall j :: !OccursAt(phoneNumber, Prefix, j)
    ensures FormatPhoneNumber(phoneNumber) == phoneNumber
  {
  }

  /**
   * Otherwise the result is the text before the first occurrence followed by the
   * text after it, nine characters shorter.
   */
  lemma FirstOccurrenceRemoved(phoneNumber: string, k: nat)
    requires OccursAt(phoneNumber, Prefix, k)
    requires forall j :: 0 <= j < k ==> !OccursAt(phoneNumber, Prefix, j)
    ensures FormatPhoneNumber(phoneNumber) == phoneNumber[..k] + phoneNumber[k + |Prefix|..]
    ensures |FormatPhoneNumber(phoneNumber)| == |phoneNumber| - 9
  {
    var r := IndexOf(phoneNumber, Prefix);
    assert r.Some?;
    assert !(r.value < k) && !(k < r.value);
  }

  /** What `sendMessage` addresses, `formatPhoneNumber` turns back into the bare number. */
  lemma AddressRoundTrip(to: string)
    ensures FormatPhoneNumber(WhatsAppAddress(to)) == to
  {
    var s := WhatsAppAddress(to);
    assert OccursAt(s, Prefix, 0);
    FirstOccurrenceRemoved(s, 0);
  }

  /** Only one prefix is removed per call, so formatting twice differs from formatting once. */
  lemma FormatNotIdempotent(s: string)
    ensures FormatPhoneNumber(Prefix + Prefix + s) == Prefix + s
    ensures FormatPhoneNumber(FormatPhoneNumber(Prefix + Prefix + s)) == s
    ensures FormatPhoneNumber(FormatPhoneNumber(Prefix + Prefix + s)) != FormatPhoneNumber(Prefix + Prefix + s)
  {
    assert Prefix + Prefix + s == WhatsAppAddress(Prefix + s);
    AddressRoundTrip(Prefix + s);
    AddressRoundTrip(s);
  }
}
