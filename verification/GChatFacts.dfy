/** What a Chat message is to the syncer: whose it is, and by what name it is shown. */
module GChatFacts {
  import opened Basics
  import opened GChat

  /** A message is the account's own by its user alone, when it and the account have one; a message
      that carries a user is never own by name; and one that carries none is own by name alone,
      however cased or spaced. */
  lemma WroteSpelled(me: Me, m: ApiMessage)
    ensures m.sender != "" ==> (Wrote(me, m) <==> m.sender == me.user)
    ensures m.sender == "" ==> (Wrote(me, m) <==> me.name != "" && SameLetters(TrimSpace(m.senderName), me.name))
  {
    LowerSame(TrimSpace(m.senderName), me.name);
  }

  /** An app says so in its name. */
  lemma ShownSpelled(m: ApiMessage)
    ensures !m.bot ==> ShownName(m) == TrimSpace(m.senderName)
    ensures m.bot && TrimSpace(m.senderName) == "" ==> ShownName(m) == "an app"
    ensures m.bot && TrimSpace(m.senderName) != "" ==> ShownName(m) == TrimSpace(m.senderName) + " (an app)"
  {
  }

  /** A page's messages are its rows, one for one and in order: each under its own name and time,
      with its own words, of its own sender. */
  lemma RowsAreMessages(me: Me, space: string, ms: seq<ApiMessage>)
    ensures var out := MessagesOf(me, space, ms);
      |out| == |ms| && forall i :: 0 <= i < |ms| ==>
        && out[i].id == ms[i].name && out[i].at == ms[i].created && out[i].content == ms[i].text && out[i].chat == space
        && out[i].sender == ms[i].sender && out[i].senderName == ShownName(ms[i]) && out[i].fromMe == Wrote(me, ms[i])
  {
    hide Wrote, ShownName;
  }
}
