/**
 * The scenario of TestEventBus: one listener on "test", one post without
 * a payload and one with a payload holding "pi".
 */
module EventbusTest {
  import opened Eventbus

  /**
   * The listener (identifier 0) is called by both posts, sees the name
   * "test" each time, sees no data on the first and the "pi" entry on the
   * second.
   */
  method TestEventBus(pi: Value) returns (first: seq<Call>, second: seq<Call>)
    ensures |first| == 1 && first[0].listener == 0
    ensures first[0].event == Event("test", Nil)
    ensures |second| == 1 && second[0].listener == 0 && second[0].event.name == "test"
    ensures second[0].event.data.Entries?
    ensures "pi" in second[0].event.data.entries && second[0].event.data.entries["pi"] == pi
  {
    var bus := new EventBus();
    bus.Subscribe("test", 0);
    first := bus.Post("test", []);
    second := bus.Post("test", [Entries(map["pi" := pi])]);
  }
}
