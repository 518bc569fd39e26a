/**
 * The armed flag. In the program an `Alarm` is a handle to one shared
 * atomic boolean; cloning a handle shares the same cell. Here the cell is
 * an object with one `bool` field, so a clone is the same reference and
 * every handle sees every write. Reads and writes are sequential: atomicity
 * and memory ordering are outside the model.
 */
module AlarmFlag {

  /** Exclusive or, the update `fetch_xor` applies to the stored value. */
  function Xor(a: bool, b: bool): (r: bool)
    ensures r <==> (a && !b) || (!a && b)
  {
    a != b
  }

  /** Exclusive or with `true` negates, so doing it twice gives back the start value. */
  lemma XorTrueTwice(b: bool)
    ensures Xor(b, true) == !b
    ensures Xor(Xor(b, true), true) == b
  {
  }

  class Alarm {
    /** `true` while the alarm is armed. */
    var active: bool

    /** A new alarm is armed. */
    constructor ()
      ensures active
    {
      active := true;
    }

    /** The current value of the flag; reading changes nothing. */
    method IsAlarmOn() returns (on: bool)
      ensures on <==> active
    {
      on := active;
    }

    /** Flips the flag by an exclusive or with `true`. */
    method InvertAlarm()
      modifies this
      ensures active == Xor(old(active), true)
      ensures active == !old(active)
    {
      active := Xor(active, true);
    }

    /**
     * A click on the window's button: invert the flag through a clone of
     * the handle, then read it back for the button's style. The value read
     * is the new state of the shared flag.
     */
    method ClickToggle() returns (status: bool)
      modifies this
      ensures active == !old(active)
      ensures status == active
    {
      var handle := this;
      handle.InvertAlarm();
      status := handle.IsAlarmOn();
    }
  }

  /** Two clicks leave the flag as it was, and each click reports the flag it set. */
  method ClickTwice(alarm: Alarm) returns (first: bool, second: bool)
    modifies alarm
    ensures first == !old(alarm.active) && second == old(alarm.active)
    ensures alarm.active == old(alarm.active)
  {
    first := alarm.ClickToggle();
    second := alarm.ClickToggle();
  }

  /** At start-up the window shows the alarm as armed. */
  method Startup() returns (alarm: Alarm, shown: bool)
    ensures fresh(alarm) && alarm.active
    ensures shown
  {
    alarm := new Alarm();
    shown := alarm.IsAlarmOn();
  }
}
