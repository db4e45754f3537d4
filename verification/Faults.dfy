/** File system calls that may fail. */
module Faults {

  /** A call may fail with or without having taken effect: `ok` is what the caller learns, `done` what happened. */
  method Attempt(faulty: bool) returns (done: bool, ok: bool)
    ensures ok ==> done
    ensures !faulty ==> done && ok
  {
    done, ok := true, true;
    if faulty {
      if * {
        ok := false;
        if * {
          done := false;
        }
      }
    }
  }
}
