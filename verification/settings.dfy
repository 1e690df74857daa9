/**
 * `SettingsViewController` of the first app: three incrementers (shortest
 * round, longest round, actions per round, in minutes and counts) that
 * edit the game manager's settings, a show-timer switch and a reset
 * button. The controller is the incrementers' delegate.
 */
module SettingsScreens {
  import opened Strings
  import opened Incrementers
  import MessageEngines

  /** Tags of the three incrementers. */
  const MinimumTimeTag := 1
  const MaximumTimeTag := 2
  const ActionsTag := 3

  class SettingsViewController {
    const manager: MessageEngines.GameManager
    const minimumTimeIncrementer: IncrementerView
    const maximumTimeIncrementer: IncrementerView
    const actionsIncrementer: IncrementerView

    /** The shortest round never exceeds the longest. */
    ghost predicate SettingsOrdered()
      reads manager
    {
      manager.minimumRoundTime <= manager.maximumRoundTime
    }

    /** Three distinct incrementers with their tags and ranges, each showing what its value allows. */
    ghost predicate Layout()
      reads minimumTimeIncrementer, maximumTimeIncrementer, actionsIncrementer
    {
      && minimumTimeIncrementer != maximumTimeIncrementer
      && minimumTimeIncrementer != actionsIncrementer
      && maximumTimeIncrementer != actionsIncrementer
      && minimumTimeIncrementer.tag == MinimumTimeTag && minimumTimeIncrementer.Valid()
      && minimumTimeIncrementer.minValue == 1 && minimumTimeIncrementer.maxValue == 10
      && maximumTimeIncrementer.tag == MaximumTimeTag && maximumTimeIncrementer.Valid()
      && maximumTimeIncrementer.minValue == 1 && maximumTimeIncrementer.maxValue == 10
      && actionsIncrementer.tag == ActionsTag && actionsIncrementer.Valid()
      && actionsIncrementer.minValue == 1 && actionsIncrementer.maxValue == 5
    }

    /** Each incrementer shows the setting it edits. */
    ghost predicate Synced()
      reads manager, minimumTimeIncrementer, maximumTimeIncrementer, actionsIncrementer
    {
      && minimumTimeIncrementer.currentValue == manager.minimumRoundTime
      && maximumTimeIncrementer.currentValue == manager.maximumRoundTime
      && actionsIncrementer.currentValue == manager.eventsPerRound
    }

    /** `viewDidLoad`: the incrementers start from the settings, with their ranges and tags, then `updateUI` runs. */
    constructor(manager: MessageEngines.GameManager)
      modifies manager`minimumRoundTime, manager`maximumRoundTime, manager`eventsPerRound
      ensures this.manager == manager && Layout() && Synced()
      ensures manager.minimumRoundTime == old(manager.minimumRoundTime)
      ensures manager.maximumRoundTime == old(manager.maximumRoundTime)
      ensures manager.eventsPerRound == old(manager.eventsPerRound)
      ensures fresh(minimumTimeIncrementer) && fresh(maximumTimeIncrementer) && fresh(actionsIncrementer)
    {
      this.manager := manager;
      minimumTimeIncrementer := new IncrementerView(manager.minimumRoundTime, 10, 1, MinimumTimeTag);
      maximumTimeIncrementer := new IncrementerView(manager.maximumRoundTime, 10, 1, MaximumTimeTag);
      actionsIncrementer := new IncrementerView(manager.eventsPerRound, 5, 1, ActionsTag);
      new;
      UpdateUI();
    }

    /** The delegate's should-update: the shortest round may not pass the longest, nor the longest fall below the shortest. */
    function ShouldUpdate(tag: int, newValue: int): (approve: bool)
      reads manager
      ensures tag == MinimumTimeTag ==> (approve <==> newValue <= manager.maximumRoundTime)
      ensures tag == MaximumTimeTag ==> (approve <==> newValue >= manager.minimumRoundTime)
      ensures tag != MinimumTimeTag && tag != MaximumTimeTag ==> approve
    {
      if tag == MinimumTimeTag then newValue <= manager.maximumRoundTime
      else if tag == MaximumTimeTag then newValue >= manager.minimumRoundTime
      else true
    }

    /** The delegate's did-update: the incrementer's tag picks the setting that takes the new value. */
    method DidUpdate(tag: int, newValue: int)
      modifies manager`minimumRoundTime, manager`maximumRoundTime, manager`eventsPerRound
      ensures manager.minimumRoundTime == if tag == MinimumTimeTag then newValue else old(manager.minimumRoundTime)
      ensures manager.maximumRoundTime == if tag == MaximumTimeTag then newValue else old(manager.maximumRoundTime)
      ensures manager.eventsPerRound == if tag == ActionsTag then newValue else old(manager.eventsPerRound)
      ensures manager.shouldShowTimer == old(manager.shouldShowTimer)
      ensures manager.remainingTime == old(manager.remainingTime) && manager.timerActive == old(manager.timerActive)
      ensures manager.remainingEventMessages == old(manager.remainingEventMessages) && manager.events == old(manager.events)
      ensures old(SettingsOrdered()) && old(ShouldUpdate(tag, newValue)) ==> SettingsOrdered()
    {
      if tag == MinimumTimeTag {
        manager.minimumRoundTime := newValue;
      } else if tag == MaximumTimeTag {
        manager.maximumRoundTime := newValue;
      } else if tag == ActionsTag {
        manager.eventsPerRound := newValue;
      }
    }

    /**
     * One request to change an incrementer's value (a button, or done on
     * the keyboard), with this controller as the delegate: it approves or
     * refuses, and an accepted change reaches the settings. The order of
     * the round lengths is kept.
     */
    method RequestChange(view: IncrementerView, newValue: int) returns (changed: bool)
      requires view.Valid()
      modifies view`currentValue, view`text, view`decrementEnabled, view`incrementEnabled, view`notifications
      modifies manager`minimumRoundTime, manager`maximumRoundTime, manager`eventsPerRound
      ensures view.Valid()
      ensures changed <==> view.minValue <= newValue <= view.maxValue && old(ShouldUpdate(view.tag, newValue))
      ensures changed ==> view.currentValue == newValue
      ensures !changed ==> view.currentValue == old(view.currentValue)
      ensures manager.minimumRoundTime ==
        if changed && view.tag == MinimumTimeTag then newValue else old(manager.minimumRoundTime)
      ensures manager.maximumRoundTime ==
        if changed && view.tag == MaximumTimeTag then newValue else old(manager.maximumRoundTime)
      ensures manager.eventsPerRound ==
        if changed && view.tag == ActionsTag then newValue else old(manager.eventsPerRound)
      ensures old(SettingsOrdered()) ==> SettingsOrdered()
    {
      var approval := ShouldUpdate(view.tag, newValue);
      changed := view.ChangeValue(newValue, Some(approval));
      if changed {
        DidUpdate(view.tag, newValue);
      }
    }

    /**
     * `updateUI`: each setting is sent back through its incrementer's
     * `changeValue` with this controller as the delegate. A setting the
     * incrementer's range and the delegate accept becomes its value; the
     * settings themselves end as they were.
     */
    method UpdateUI()
      requires Layout()
      modifies minimumTimeIncrementer`currentValue, minimumTimeIncrementer`text, minimumTimeIncrementer`decrementEnabled,
               minimumTimeIncrementer`incrementEnabled, minimumTimeIncrementer`notifications
      modifies maximumTimeIncrementer`currentValue, maximumTimeIncrementer`text, maximumTimeIncrementer`decrementEnabled,
               maximumTimeIncrementer`incrementEnabled, maximumTimeIncrementer`notifications
      modifies actionsIncrementer`currentValue, actionsIncrementer`text, actionsIncrementer`decrementEnabled,
               actionsIncrementer`incrementEnabled, actionsIncrementer`notifications
      modifies manager`minimumRoundTime, manager`maximumRoundTime, manager`eventsPerRound
      ensures Layout()
      ensures manager.minimumRoundTime == old(manager.minimumRoundTime)
      ensures manager.maximumRoundTime == old(manager.maximumRoundTime)
      ensures manager.eventsPerRound == old(manager.eventsPerRound)
      ensures minimumTimeIncrementer.currentValue ==
        if 1 <= manager.minimumRoundTime <= 10 && SettingsOrdered() then manager.minimumRoundTime
        else old(minimumTimeIncrementer.currentValue)
      ensures maximumTimeIncrementer.currentValue ==
        if 1 <= manager.maximumRoundTime <= 10 && SettingsOrdered() then manager.maximumRoundTime
        else old(maximumTimeIncrementer.currentValue)
      ensures actionsIncrementer.currentValue ==
        if 1 <= manager.eventsPerRound <= 5 then manager.eventsPerRound else old(actionsIncrementer.currentValue)
    {
      var _ := RequestChange(minimumTimeIncrementer, manager.minimumRoundTime);
      var _ := RequestChange(maximumTimeIncrementer, manager.maximumRoundTime);
      var _ := RequestChange(actionsIncrementer, manager.eventsPerRound);
    }

    /** `showTimerButtonPressed`: the show-timer setting flips, then `updateUI` runs and changes no setting. */
    method ShowTimerButtonPressed()
      requires Layout()
      modifies manager`shouldShowTimer, manager`minimumRoundTime, manager`maximumRoundTime, manager`eventsPerRound
      modifies minimumTimeIncrementer`currentValue, minimumTimeIncrementer`text, minimumTimeIncrementer`decrementEnabled,
               minimumTimeIncrementer`incrementEnabled, minimumTimeIncrementer`notifications
      modifies maximumTimeIncrementer`currentValue, maximumTimeIncrementer`text, maximumTimeIncrementer`decrementEnabled,
               maximumTimeIncrementer`incrementEnabled, maximumTimeIncrementer`notifications
      modifies actionsIncrementer`currentValue, actionsIncrementer`text, actionsIncrementer`decrementEnabled,
               actionsIncrementer`incrementEnabled, actionsIncrementer`notifications
      ensures Layout()
      ensures manager.shouldShowTimer == !old(manager.shouldShowTimer)
      ensures manager.minimumRoundTime == old(manager.minimumRoundTime)
      ensures manager.maximumRoundTime == old(manager.maximumRoundTime)
      ensures manager.eventsPerRound == old(manager.eventsPerRound)
      ensures old(Synced()) ==> Synced()
    {
      manager.shouldShowTimer := !manager.shouldShowTimer;
      UpdateUI();
    }

    /**
     * `resetButtonPressed`: every setting goes back to its default, the
     * defaults are ordered, and `updateUI` moves every incrementer to them.
     */
    method ResetButtonPressed()
      requires Layout()
      modifies manager`shouldShowTimer, manager`minimumRoundTime, manager`maximumRoundTime, manager`eventsPerRound
      modifies minimumTimeIncrementer`currentValue, minimumTimeIncrementer`text, minimumTimeIncrementer`decrementEnabled,
               minimumTimeIncrementer`incrementEnabled, minimumTimeIncrementer`notifications
      modifies maximumTimeIncrementer`currentValue, maximumTimeIncrementer`text, maximumTimeIncrementer`decrementEnabled,
               maximumTimeIncrementer`incrementEnabled, maximumTimeIncrementer`notifications
      modifies actionsIncrementer`currentValue, actionsIncrementer`text, actionsIncrementer`decrementEnabled,
               actionsIncrementer`incrementEnabled, actionsIncrementer`notifications
      ensures Layout() && Synced() && SettingsOrdered()
      ensures manager.shouldShowTimer == MessageEngines.DefaultShowTimer
      ensures manager.minimumRoundTime == MessageEngines.DefaultMinimumRoundTime
      ensures manager.maximumRoundTime == MessageEngines.DefaultMaximumRoundTime
      ensures manager.eventsPerRound == MessageEngines.DefaultEventsPerRound
    {
      manager.shouldShowTimer := MessageEngines.DefaultShowTimer;
      manager.minimumRoundTime := MessageEngines.DefaultMinimumRoundTime;
      manager.maximumRoundTime := MessageEngines.DefaultMaximumRoundTime;
      manager.eventsPerRound := MessageEngines.DefaultEventsPerRound;
      UpdateUI();
    }
  }
}
