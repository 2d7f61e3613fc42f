/**
 * The admin gate: the session flag `admin_authenticated`, set by the
 * "Se connecter" button and cleared by "Se déconnecter". The password box is
 * read but its content is never compared with anything.
 */
module AdminGate {
  import opened Wrappers

  /** What can happen to the flag: opening the admin page, pressing
      "Se connecter" with whatever is typed in the password box, pressing
      "Se déconnecter". */
  datatype Event = OpenAdmin | Connect(password: string) | Disconnect

  /** The flag after one event; `None` while the session has no such key. */
  function Step(flag: Option<bool>, e: Event): Option<bool> {
    match e
    case OpenAdmin => if flag.None? then Some(false) else flag
    case Connect(_) => Some(true)
    case Disconnect => Some(false)
  }

  /** The flag after a whole session's events, starting from a fresh session. */
  function Replay(events: seq<Event>): Option<bool> {
    if events == [] then None else Step(Replay(events[..|events| - 1]), events[|events| - 1])
  }

  /** Position `i` holds a "Se connecter" press not followed by any
      "Se déconnecter" press. */
  ghost predicate LastToggleIsConnect(events: seq<Event>, i: int) {
    0 <= i < |events| && events[i].Connect? && forall j :: i < j < |events| ==> !events[j].Disconnect?
  }

  /** The admin pages are shown exactly when some "Se connecter" press has not
      been undone by a later "Se déconnecter"; passwords play no part. */
  lemma {:induction false} UnlockedIffConnectedLast(events: seq<Event>)
    ensures Replay(events) == Some(true) <==> exists i :: LastToggleIsConnect(events, i)
  {
    if events != [] {
      var n := |events| - 1;
      var front := events[..n];
      UnlockedIffConnectedLast(front);
      match events[n]
      case Connect(_) =>
        assert LastToggleIsConnect(events, n);
      case Disconnect =>
        forall i | 0 <= i < n ensures !LastToggleIsConnect(events, i) {
          assert events[n].Disconnect?;
        }
      case OpenAdmin =>
        if exists i :: LastToggleIsConnect(front, i) {
          var i :| LastToggleIsConnect(front, i);
          assert LastToggleIsConnect(events, i);
        }
        if exists i :: LastToggleIsConnect(events, i) {
          var i :| LastToggleIsConnect(events, i);
          assert LastToggleIsConnect(front, i);
        }
    }
  }

  /** Two sessions that press the same buttons in the same order end in the
      same state, whatever passwords were typed. */
  lemma {:induction false} PasswordIrrelevant(events: seq<Event>, events': seq<Event>)
    requires |events| == |events'|
    requires forall i :: 0 <= i < |events| ==>
               (events[i].Connect? && events'[i].Connect?) || events[i] == events'[i]
    ensures Replay(events) == Replay(events')
  {
    if events != [] {
      var n := |events| - 1;
      PasswordIrrelevant(events[..n], events'[..n]);
    }
  }

  /** The session state that carries the flag between reruns of the page. */
  class AdminSession {
    var authenticated: Option<bool>

    constructor ()
      ensures authenticated == None
    {
      authenticated := None;
    }

    /** Opening the admin page: the flag is created as `False` when absent.
        Returns whether the dashboard (rather than the password prompt) shows. */
    method OpenAdminPage() returns (dashboard: bool)
      modifies this
      ensures authenticated == Step(old(authenticated), OpenAdmin)
      ensures dashboard <==> authenticated == Some(true)
    {
      if authenticated.None? {
        authenticated := Some(false);
      }
      dashboard := authenticated == Some(true);
    }

    /** `connect_admin`: the typed password is ignored. */
    method ConnectAdmin(password: string)
      modifies this
      ensures authenticated == Step(old(authenticated), Connect(password))
    {
      authenticated := Some(true);
    }

    /** `disconnect_admin`. */
    method DisconnectAdmin()
      modifies this
      ensures authenticated == Step(old(authenticated), Disconnect)
    {
      authenticated := Some(false);
    }
  }
}
