/** Notions several modules share. */
module Common {
  datatype Option<T> = None | Some(value: T)

  ghost predicate Occurs(s: seq<nat>, a: nat) {
    exists i :: 0 <= i < |s| && s[i] == a
  }

  function Without(s: seq<nat>, i: nat): seq<nat>
    requires i < |s|
  {
    s[..i] + s[i + 1..]
  }

  function With(s: seq<nat>, slot: nat, a: nat): seq<nat>
    requires slot <= |s|
  {
    s[..slot] + [a] + s[slot..]
  }
}
