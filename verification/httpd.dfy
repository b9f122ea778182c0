/** The HTTP response a handler writes to with `httpd_resp_send_chunk`.

    Whether a send succeeds depends on the client and the network, so the
    link holds the results of its coming sends as a script; once the script
    is exhausted the client is gone and every send fails. Every chunk handed
    to the server is recorded, together with the length argument it was
    sent with, whatever the send returned. */
module Httpd {
  import opened Esp

  /** One `httpd_resp_send_chunk(req, buf, len)` call: the bytes the caller
      meant to send, and the length it declared. */
  datatype Chunk =
    | Text(text: string, len: nat)
    | Data(bytes: seq<Byte>, len: nat)

  /** The result of the k-th coming send. */
  function Outcome(outcomes: seq<EspErr>, k: nat): EspErr {
    if k < |outcomes| then outcomes[k] else ESP_FAIL
  }

  /** The script once n sends have been made. */
  function Drop(outcomes: seq<EspErr>, n: nat): seq<EspErr> {
    if n <= |outcomes| then outcomes[n..] else []
  }

  /** The k-th result after n sends is the (n + k)-th result of the script. */
  lemma OutcomeAfterDrop(outcomes: seq<EspErr>, n: nat, k: nat)
    ensures Outcome(Drop(outcomes, n), k) == Outcome(outcomes, n + k)
  {
  }

  /** Dropping a then b outcomes is dropping a + b. */
  lemma DropDrop(outcomes: seq<EspErr>, a: nat, b: nat)
    ensures Drop(Drop(outcomes, a), b) == Drop(outcomes, a + b)
  {
  }

  class Link {
    var outcomes: seq<EspErr>
    var sent: seq<Chunk>
    /** Set by `httpd_resp_set_type`. */
    var contentType: string
    /** Set by `httpd_resp_set_hdr`, in call order. */
    var headers: seq<(string, string)>

    constructor (script: seq<EspErr>)
      ensures outcomes == script && sent == [] && contentType == "text/html" && headers == []
    {
      outcomes, sent, contentType, headers := script, [], "text/html", [];
    }

    /** `httpd_resp_set_type`. */
    method SetType(t: string)
      modifies this
      ensures contentType == t
      ensures outcomes == old(outcomes) && sent == old(sent) && headers == old(headers)
    {
      contentType := t;
    }

    /** `httpd_resp_set_hdr`. */
    method SetHeader(field: string, value: string)
      modifies this
      ensures headers == old(headers) + [(field, value)]
      ensures outcomes == old(outcomes) && sent == old(sent) && contentType == old(contentType)
    {
      headers := headers + [(field, value)];
    }

    /** `httpd_resp_send_chunk`. */
    method SendChunk(c: Chunk) returns (res: EspErr)
      modifies this
      ensures res == Outcome(old(outcomes), 0)
      ensures outcomes == Drop(old(outcomes), 1)
      ensures sent == old(sent) + [c]
      ensures contentType == old(contentType) && headers == old(headers)
    {
      res := if |outcomes| > 0 then outcomes[0] else ESP_FAIL;
      outcomes := if |outcomes| > 0 then outcomes[1..] else [];
      sent := sent + [c];
    }
  }
}
