/**
 * The part of the session controller that reacts to activity and silence
 * notifications from its session: a repeated notification is ignored,
 * otherwise the new state is remembered and the view's icon follows it.
 * Title updates write the same icon fields. Icons are abstract values.
 */
module Controller {

  /** Session notification states. */
  const NotifyNormal: int := 0
  const NotifyActivity: int := 2
  const NotifySilence: int := 3

  datatype Icon = NoIcon | ActivityIcon | SilenceIcon | SessionIcon(name: string)

  /** The controller state the notifications touch. */
  datatype NotifyState = NotifyState(
    previousState: int,      // the last state notified; -1 before the first
    sessionIconName: string, // the icon name the session icon was made from
    sessionIcon: Icon,       // the icon shown in the normal state
    icon: Icon)              // the icon the view currently shows

  /**
   * A notification of `state`, where `iconName` is the session's current
   * icon name.
   */
  function Notify(s: NotifyState, state: int, iconName: string): (r: NotifyState)
    ensures state == s.previousState ==> r == s
    ensures r.previousState == state
    ensures state != s.previousState && state == NotifyActivity ==> r.icon == ActivityIcon
    ensures state != s.previousState && state == NotifySilence ==> r.icon == SilenceIcon
    ensures state != s.previousState && state == NotifyNormal ==>
      && r.sessionIconName == iconName
      && r.icon == r.sessionIcon
      && (iconName != s.sessionIconName ==> r.sessionIcon == SessionIcon(iconName))
      && (iconName == s.sessionIconName ==> r.sessionIcon == s.sessionIcon)
    ensures state !in {NotifyNormal, NotifyActivity, NotifySilence} ==> r == s.(previousState := state)
    ensures state != NotifyNormal ==> r.sessionIconName == s.sessionIconName && r.sessionIcon == s.sessionIcon
  {
    if state == s.previousState then s
    else
      var s := s.(previousState := state);
      if state == NotifyActivity then s.(icon := ActivityIcon)
      else if state == NotifySilence then s.(icon := SilenceIcon)
      else if state == NotifyNormal then
        var s := if s.sessionIconName != iconName
                 then s.(sessionIconName := iconName, sessionIcon := SessionIcon(iconName))
                 else s;
        s.(icon := s.sessionIcon)
      else s
  }

  /**
   * The session's title or icon changed, where `iconName` is the session's
   * current icon name: when the name differs from the one the session icon
   * was made from, the session icon is rebuilt and shown, whatever icon a
   * notification had put up; the notification state is left alone.
   */
  function TitleChanged(s: NotifyState, iconName: string): (r: NotifyState)
    ensures r.previousState == s.previousState
    ensures r.sessionIconName == iconName
    ensures iconName == s.sessionIconName ==> r == s
    ensures iconName != s.sessionIconName ==> r.sessionIcon == SessionIcon(iconName) && r.icon == SessionIcon(iconName)
  {
    if s.sessionIconName != iconName
    then s.(sessionIconName := iconName, sessionIcon := SessionIcon(iconName), icon := SessionIcon(iconName))
    else s
  }

  /** A second update with the same icon name changes nothing more. */
  lemma TitleChangeIsIdempotent(s: NotifyState, iconName: string)
    ensures TitleChanged(TitleChanged(s, iconName), iconName) == TitleChanged(s, iconName)
  {
  }

  /**
   * A new icon name arriving while the session is active replaces the
   * activity icon, and a repeated activity notification does not bring it
   * back, since the recorded state is still activity.
   */
  lemma TitleChangeHidesActivity(s: NotifyState, iconName: string)
    requires s.previousState == NotifyActivity && s.icon == ActivityIcon
    requires iconName != s.sessionIconName
    ensures Notify(TitleChanged(s, iconName), NotifyActivity, iconName).icon == SessionIcon(iconName)
  {
  }

  /**
   * After a title update, a return to the normal state shows the session
   * icon for the current icon name without rebuilding it.
   */
  lemma NormalAfterTitleChange(s: NotifyState, iconName: string)
    requires s.previousState != NotifyNormal
    ensures Notify(TitleChanged(s, iconName), NotifyNormal, iconName)
         == TitleChanged(s, iconName).(previousState := NotifyNormal, icon := TitleChanged(s, iconName).sessionIcon)
  {
  }

  /** A notification repeated straight away changes nothing more. */
  lemma NotifyRepeatIsIgnored(s: NotifyState, state: int, iconName: string, laterIconName: string)
    ensures Notify(Notify(s, state, iconName), state, laterIconName) == Notify(s, state, iconName)
  {
  }

  class SessionController {
    var previousState: int
    var sessionIconName: string
    var sessionIcon: Icon
    var icon: Icon

    function State(): NotifyState
      reads this
    {
      NotifyState(previousState, sessionIconName, sessionIcon, icon)
    }

    /**
     * A new controller for a session whose icon name is `iconName`: it has
     * seen no notification yet, and its first title update shows the session
     * icon when the name is not empty.
     */
    constructor (iconName: string)
      ensures State() == TitleChanged(NotifyState(-1, "", NoIcon, NoIcon), iconName)
      ensures State() == NotifyState(-1, iconName,
                                     if iconName != "" then SessionIcon(iconName) else NoIcon,
                                     if iconName != "" then SessionIcon(iconName) else NoIcon)
    {
      previousState := -1;
      sessionIconName := "";
      sessionIcon := NoIcon;
      icon := NoIcon;
      new;
      SessionTitleChanged(iconName);
    }

    /** The session's title or icon changed; `iconName` is its current icon name. */
    method SessionTitleChanged(iconName: string)
      modifies this
      ensures State() == TitleChanged(old(State()), iconName)
    {
      if sessionIconName != iconName {
        sessionIconName := iconName;
        sessionIcon := SessionIcon(iconName);
        icon := sessionIcon;
      }
    }

    method SessionStateChanged(state: int, iconName: string)
      modifies this
      ensures State() == Notify(old(State()), state, iconName)
    {
      if state == previousState {
        return;
      }
      previousState := state;
      if state == NotifyActivity {
        icon := ActivityIcon;
      } else if state == NotifySilence {
        icon := SilenceIcon;
      } else if state == NotifyNormal {
        if sessionIconName != iconName {
          sessionIconName := iconName;
          sessionIcon := SessionIcon(iconName);
        }
        icon := sessionIcon;
      }
    }
  }
}
