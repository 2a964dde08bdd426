/** module-python/lib/substanceconnector/framework/application.py:
    BaseApplication, the class every Python application derives from. An
    application class is modelled by what the framework asks of it: its
    callback list and its feature ids. Its pre_init is BaseApplication's,
    which registers that list (no application overrides it); its other hooks
    are foreign code whose calls the instance records. */
module PyApplication {
  import opened Common
  import opened PyCallbacks

  /** A feature id is a uuid.UUID, given by its `int`. */
  type FeatureId = MessageType

  /** An application class: an identity, what `get_callback_list` returns
      and what `get_feature_ids` returns (None when it is not overridden). */
  datatype Application = Application(
    identity: nat,
    callbackList: seq<(MessageType, PyCallable)>,
    featureIds: Option<seq<FeatureId>>)

  /** BaseApplication itself: an empty callback list and no feature ids. */
  const BaseApplication: Application := Application(0, [], None)

  /** The callback map after registering each pair of the list in order. */
  function Registered(m: map<MessageType, PyCallable>, list: seq<(MessageType, PyCallable)>): map<MessageType, PyCallable>
    decreases |list|
  {
    if list == [] then m
    else
      var last := list[|list| - 1];
      Registered(m, list[..|list| - 1])[last.0 := last.1]
  }

  /** pre_init: registers every pair of the callback list, in list order. */
  method PreInit(app: Application, callbacks: CallbackManager)
    modifies callbacks
    ensures callbacks.callbackMap == Registered(old(callbacks.callbackMap), app.callbackList)
  {
    var list := app.callbackList;
    var i := 0;
    while i < |list|
      invariant 0 <= i <= |list|
      invariant callbacks.callbackMap == Registered(old(callbacks.callbackMap), list[..i])
    {
      var (messageType, callback) := list[i];
      assert list[..i + 1][..i] == list[..i];
      callbacks.RegisterCallback(messageType, callback);
      i := i + 1;
    }
    assert list[..i] == list;
  }

  /** After pre_init the registered types are the old ones plus those of the
      list; a type the list does not name keeps its old callback. */
  lemma {:induction false} RegisteredUntouched(m: map<MessageType, PyCallable>, list: seq<(MessageType, PyCallable)>)
    ensures Registered(m, list).Keys == m.Keys + set i | 0 <= i < |list| :: list[i].0
    ensures forall t :: t in m && (forall i :: 0 <= i < |list| ==> list[i].0 != t) ==>
      Registered(m, list)[t] == m[t]
    decreases |list|
  {
    if list != [] {
      var init := list[..|list| - 1];
      RegisteredUntouched(m, init);
      assert (set i | 0 <= i < |list| :: list[i].0)
        == (set i | 0 <= i < |init| :: init[i].0) + {list[|list| - 1].0} by {
        forall i | 0 <= i < |list|
          ensures list[i].0 in (set i | 0 <= i < |init| :: init[i].0) + {list[|list| - 1].0}
        {
          if i < |init| {
            assert init[i] == list[i];
          }
        }
        forall i | 0 <= i < |init|
          ensures init[i].0 in (set i | 0 <= i < |list| :: list[i].0)
        {
          assert init[i] == list[i];
        }
      }
      forall t | t in m && (forall i :: 0 <= i < |list| ==> list[i].0 != t)
        ensures Registered(m, list)[t] == m[t]
      {
        assert forall i :: 0 <= i < |init| ==> init[i] == list[i];
        assert list[|list| - 1].0 != t;
      }
    }
  }

  /** A type the list names ends bound to its last callback in the list:
      a later pair for the same type overwrites an earlier one. */
  lemma {:induction false} RegisteredLastWins(m: map<MessageType, PyCallable>, list: seq<(MessageType, PyCallable)>, i: nat)
    requires i < |list|
    requires forall j :: i < j < |list| ==> list[j].0 != list[i].0
    ensures list[i].0 in Registered(m, list)
    ensures Registered(m, list)[list[i].0] == list[i].1
    decreases |list|
  {
    var init := list[..|list| - 1];
    if i < |list| - 1 {
      assert init[i] == list[i];
      forall j | i < j < |init|
        ensures init[j].0 != init[i].0
      {
        assert init[j] == list[j];
      }
      RegisteredLastWins(m, init, i);
    }
  }

  /** BaseApplication's pre_init registers nothing. */
  lemma BasePreInitChangesNothing(m: map<MessageType, PyCallable>)
    ensures Registered(m, BaseApplication.callbackList) == m
  {
  }
}
