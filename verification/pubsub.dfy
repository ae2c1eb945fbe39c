/**
  The broadcaster of client.py (`pubsub_manager`): reads one message at a
  time and copies it to every subscriber, up to and including the first
  end-of-day marker.
 */
module PubSub {

  /** One decoded market-data tick: the instrument and its close price. */
  datatype Tick = Tick(identifier: string, price: real)

  /** A message on a queue: the "EOD" marker or a tick. */
  datatype Message = Eod | Data(tick: Tick)

  /**
    What the broadcaster takes from its input: every message up to and
    including the first marker, or everything when there is no marker.
   */
  function Forwarded(input: seq<Message>): (out: seq<Message>)
    ensures |out| <= |input| && out == input[..|out|]
    ensures forall j :: 0 <= j < |out| - 1 ==> out[j].Data?
    ensures Eod in input <==> |out| > 0 && out[|out| - 1] == Eod
    ensures Eod !in input ==> out == input
    decreases |input|
  {
    if |input| == 0 then []
    else if input[0] == Eod then [Eod]
    else
      assert input == [input[0]] + input[1..];
      [input[0]] + Forwarded(input[1..])
  }

  /** The forwarded messages end at the first marker. */
  lemma ForwardedUpToFirstEod(input: seq<Message>, k: nat)
    requires k < |input| && input[k] == Eod
    requires forall j :: 0 <= j < k ==> input[j].Data?
    ensures Forwarded(input) == input[..k + 1]
  {
    assert Eod in input;
  }

  /** Messages after the first marker never matter. */
  lemma ForwardedIgnoresTail(a: seq<Message>, b: seq<Message>, c: seq<Message>)
    requires Eod !in a
    ensures Forwarded(a + [Eod] + b) == Forwarded(a + [Eod] + c) == a + [Eod]
  {
    var x := a + [Eod] + b;
    var y := a + [Eod] + c;
    assert forall j :: 0 <= j < |a| ==> x[j] == a[j] && y[j] == a[j];
    ForwardedUpToFirstEod(x, |a|);
    ForwardedUpToFirstEod(y, |a|);
    assert x[..|a| + 1] == a + [Eod] == y[..|a| + 1];
  }

  /**
    The broadcaster loop for `subscribers` subscriber queues: take the next
    message; on the marker put the marker on every queue and stop; otherwise
    put the message on every queue. Returns what each queue received, how
    many messages were taken, and whether the loop stopped on a marker (the
    source would otherwise keep waiting for input).
   */
  method PubSubManager(input: seq<Message>, subscribers: nat)
    returns (queues: seq<seq<Message>>, consumed: nat, stopped: bool)
    ensures |queues| == subscribers
    ensures forall q :: 0 <= q < subscribers ==> queues[q] == Forwarded(input)
    ensures consumed == |Forwarded(input)|
    ensures stopped <==> Eod in input
  {
    queues := seq(subscribers, q => []);
    consumed := 0;
    stopped := false;
    while consumed < |input|
      invariant consumed <= |input|
      invariant |queues| == subscribers
      invariant forall j :: 0 <= j < consumed ==> input[j].Data?
      invariant forall q :: 0 <= q < subscribers ==> queues[q] == input[..consumed]
    {
      var data := input[consumed];
      consumed := consumed + 1;
      if data == Eod {
        queues := seq(subscribers, q requires 0 <= q < subscribers => queues[q] + [Eod]);
        stopped := true;
        ForwardedUpToFirstEod(input, consumed - 1);
        assert input[..consumed] == input[..consumed - 1] + [Eod];
        break;
      }
      assert input[..consumed] == input[..consumed - 1] + [data];
      queues := seq(subscribers, q requires 0 <= q < subscribers => queues[q] + [data]);
    }
    if !stopped {
      assert input[..consumed] == input;
      assert Eod !in input;
    }
  }
}
