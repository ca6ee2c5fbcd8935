/** What a session shows of a telemetry frame (src/control.rs:683-705, src/homeassistant/publisher.rs:1016-1021). */
module Frames {
  import opened Prelude

  /** One reading of a frame: its raw register, its rendered text, and what that text parses to, as a 16-bit number
    * and as a real one, where it does. */
  datatype FrameReading = FrameReading(name: string, raw: nat, text: string, whole: Option<nat>, number: Option<real>)

  type View = seq<FrameReading>

  /** The first reading of a name. */
  function Named(view: View, name: string): (r: Option<FrameReading>)
    ensures r.Some? ==> r.value in view && r.value.name == name
  {
    if view == [] then None
    else if view[0].name == name then Some(view[0])
    else Named(view[1..], name)
  }

  function Raw(view: View, name: string): Option<nat> {
    match Named(view, name) { case None => None case Some(r) => Some(r.raw) }
  }

  function Whole(view: View, name: string): Option<nat> {
    match Named(view, name) { case None => None case Some(r) => r.whole }
  }

  /** Of several readings of a name, the first is meant. */
  lemma {:induction false} NamedIsFirst(view: View, name: string, i: nat)
    requires i < |view| && view[i].name == name && forall j :: 0 <= j < i ==> view[j].name != name
    ensures Named(view, name) == Some(view[i])
    ensures Raw(view, name) == Some(view[i].raw) && Whole(view, name) == view[i].whole
  {
    if i > 0 {
      NamedIsFirst(view[1..], name, i - 1);
    }
  }

  lemma {:induction false} NotNamed(view: View, name: string)
    requires forall r :: r in view ==> r.name != name
    ensures Named(view, name) == None && Raw(view, name) == None && Whole(view, name) == None
  {
    if view != [] {
      assert view[0] in view;
      NotNamed(view[1..], name);
    }
  }
}
