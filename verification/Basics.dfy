/** Vocabulary shared by every module. */
module Basics {

  datatype Option<+T> = None | Some(value: T)

  datatype Result<+T, +E> = Ok(value: T) | Err(error: E)

  /** Three flip-flops in a row; `s0` is the one that samples the other domain. */
  datatype Sync3 = Sync3(s0: bool, s1: bool, s2: bool) {
    function Shift(sample: bool): Sync3 {
      Sync3(sample, s0, s1)
    }
  }

  /** What is held, comes in and goes out balances over one step and the rest, so over all of it. */
  lemma Balance<T>(held: seq<T>, came: seq<T>, comes: seq<T>, went: seq<T>, kept: seq<T>, goes: seq<T>, end: seq<T>)
    requires held + came == went + kept
    requires kept + comes == goes + end
    ensures held + (came + comes) == (went + goes) + end
  {
    calc {
      held + (came + comes);
      (held + came) + comes;
      went + (kept + comes);
      (went + goes) + end;
    }
  }
}
