/** internal/session and internal/bridge, the steps of the task pool one by one: which sessions
    count, where a task goes at the pool check and at its start, and what else a step leaves as it
    was. */
module TaskSteps {
  import opened Text
  import opened TaskPool

  /** The other task sessions that are active. */
  function Others(sessions: Sessions, id: string): set<string> {
    set other | other in sessions && other != id && sessions[other].jobID != "" && sessions[other].active
  }

  /** Every session but this one is as it was. */
  ghost predicate SameButOne(before: Sessions, now: Sessions, id: string) {
    forall other | other != id ::
      (other in now <==> other in before) && (other in before ==> now[other] == before[other])
  }

  lemma OthersCount(sessions: Sessions, id: string)
    ensures ActiveTasks(sessions, id) == Others(sessions, id)
  {
  }

  /** The pool check of a dispatcher: to the queue from the pool size on, to its start below. */
  lemma PoolCheckMeaning(s: Pool, item: Item, max: nat)
    requires item in s.arriving
    ensures var s', full := After(s, PoolCheck(item), max), |Others(s.sessions, "")| >= max;
            && s'.arriving == s.arriving - multiset{item}
            && s'.toQueue == (if full then s.toQueue + multiset{item} else s.toQueue)
            && s'.toStart == (if full then s.toStart else s.toStart + multiset{item})
            && s' == s.(arriving := s'.arriving, toQueue := s'.toQueue, toStart := s'.toStart)
  {
    OthersCount(s.sessions, "");
  }

  /** The queue hands tasks out in the order in which they came in. */
  lemma QueueMeaning(s: Pool, item: Item, max: nat)
    ensures item in s.toQueue ==>
              var s' := After(s, EnqueueTask(item), max);
              s'.queue == s.queue + [item] && s'.toQueue == s.toQueue - multiset{item}
    ensures s.queue != [] ==>
              var s' := After(s, DequeueTask, max);
              s.queue == [s.queue[0]] + s'.queue && s'.toStart == s.toStart + multiset{s.queue[0]}
  {
  }

  /** A start, whatever ids are in use: nothing but the hand changes when the old session can be
      resumed; otherwise the old session goes, one stop if there was one, and the task is registered
      as connecting under a fresh instance if fewer than max other task sessions are active, and
      handed back for the queue if not. */
  lemma StartMeaning(s: Pool, item: Item, existing: Existing, max: nat)
    requires item in s.toStart
    ensures var s', id := After(s, StartTask(item, existing), max), item.sessionID;
            && s'.toStart == s.toStart - multiset{item} && SameButOne(s.sessions, s'.sessions, id)
            && if id in s.sessions && existing == Resumable then s' == s.(toStart := s'.toStart)
               else
                 && s'.stopped[id] == s.stopped[id] + (if id in s.sessions then 1 else 0)
                 && if |Others(s.sessions, id)| < max then
                      && id in s'.sessions && s'.sessions[id] == Session(s.nextInstance, item.jobID, true, true)
                      && s'.launching == s.launching[s.nextInstance := Launch(item, Connecting)]
                      && s'.nextInstance == s.nextInstance + 1 && s'.toQueue == s.toQueue
                    else
                      && id !in s'.sessions && s'.toQueue == s.toQueue + multiset{item}
                      && s'.launching == s.launching && s'.nextInstance == s.nextInstance
  {
    OthersCount(s.sessions, item.sessionID);
  }

  /** A chat session is no task, so no pool holds it back. */
  lemma ChatMeaning(s: Pool, id: string, existing: Existing, max: nat)
    ensures var s' := After(s, StartChat(id, existing), max);
            && SameButOne(s.sessions, s'.sessions, id)
            && (id in s.sessions && existing == Resumable ==> s' == s)
            && (id !in s.sessions || existing == Replaceable ==>
                  && id in s'.sessions && s'.sessions[id] == Session(s.nextInstance, "", true, true)
                  && s'.nextInstance == s.nextInstance + 1 && id in s'.chats
                  && s'.stopped[id] == s.stopped[id] + (if id in s.sessions then 1 else 0))
            && s'.queue == s.queue && s'.toQueue == s.toQueue && s'.toStart == s.toStart
  {
  }

  /** A session is connecting until its own Connect returns: a launch whose session was replaced
      clears no one's flag. */
  lemma ConnectedMeaning(s: Pool, i: nat, max: nat)
    requires InLaunch(s, i, Connecting)
    ensures var s', id := After(s, Connected(i), max), s.launching[i].item.sessionID;
            && SameButOne(s.sessions, s'.sessions, id)
            && (id in s'.sessions <==> id in s.sessions)
            && (id in s.sessions ==>
                  s'.sessions[id] == if s.sessions[id].instance == i then s.sessions[id].(connecting := false)
                                     else s.sessions[id])
            && s'.launching == s.launching[i := s.launching[i].(phase := Live)]
  {
  }

  lemma ChatConnectedMeaning(s: Pool, id: string, max: nat)
    requires id in s.chats && id in s.sessions
    ensures var s' := After(s, ChatConnected(id), max);
            && SameButOne(s.sessions, s'.sessions, id)
            && id in s'.sessions && s'.sessions[id] == s.sessions[id].(connecting := false)
  {
  }

  /** A stop takes the session out, and only a task session has an exit to report. */
  lemma StopMeaning(s: Pool, id: string, max: nat)
    ensures var s' := After(s, StopSession(id), max);
            && id !in s'.sessions && SameButOne(s.sessions, s'.sessions, id)
            && s'.stopped[id] == s.stopped[id] + (if id in s.sessions then 1 else 0)
            && s'.exiting[id] == s.exiting[id] + (if id in s.sessions && s.sessions[id].jobID != "" then 1 else 0)
  {
  }

  /** The prompt ends a launch: sent, the session stays; failed, it is stopped. */
  lemma PromptMeaning(s: Pool, i: nat, max: nat)
    requires InLaunch(s, i, Stored)
    ensures var s' := After(s, PromptSent(i), max);
            s' == s.(launching := s'.launching) && s'.launching == s.launching - {i}
    ensures var s', id := After(s, PromptFailed(i), max), s.launching[i].item.sessionID;
            && s'.launching == s.launching - {i} && id !in s'.sessions && SameButOne(s.sessions, s'.sessions, id)
            && s'.exiting[id] == s.exiting[id] + (if id in s.sessions && s.sessions[id].jobID != "" then 1 else 0)
  {
  }

  /** While the pool has room the task at the head of the queue can be taken out and registered. */
  lemma QueuedTaskStarts(s: Pool, max: nat)
    requires s.queue != [] && |Others(s.sessions, s.queue[0].sessionID)| < max
    requires s.queue[0].sessionID !in s.sessions
    ensures var item := s.queue[0];
            && Enabled(s, DequeueTask)
            && var s1 := After(s, DequeueTask, max);
               && Enabled(s1, StartTask(item, Replaceable))
               && var s2 := After(s1, StartTask(item, Replaceable), max);
                  && item.sessionID in s2.sessions && s2.sessions[item.sessionID].jobID == item.jobID
                  && s.queue == [item] + s2.queue && s2.toStart == s.toStart
  {
    var item := s.queue[0];
    QueueMeaning(s, item, max);
    var s1 := After(s, DequeueTask, max);
    RoomToStart(s1, item, max);
    assert s.toStart + multiset{item} - multiset{item} == s.toStart;
  }

  lemma RoomToStart(s: Pool, item: Item, max: nat)
    requires item in s.toStart && item.sessionID !in s.sessions && |Others(s.sessions, item.sessionID)| < max
    ensures var s' := After(s, StartTask(item, Replaceable), max);
            && item.sessionID in s'.sessions && s'.sessions[item.sessionID].jobID == item.jobID
            && s'.queue == s.queue && s'.toStart == s.toStart - multiset{item}
  {
    StartMeaning(s, item, Replaceable, max);
  }
}
