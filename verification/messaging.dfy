/** Private messages: each side of a conversation deletes its copy by setting
    its own flag, and a message is removed from the store once both sides
    have deleted it, or at once when it is a draft its sender deletes. The
    message box of a user counts the sent messages that user still holds. */
module Messaging {
  import opened Common
  import Validation

  class Message {
    const sender: UserId
    const receiver: UserId
    /** When the message was sent; None for a draft. */
    const sent: Option<Time>
    var senderDeleted: bool
    var receiverDeleted: bool

    constructor (sender: UserId, receiver: UserId, sent: Option<Time>)
      ensures this.sender == sender && this.receiver == receiver && this.sent == sent
      ensures !senderDeleted && !receiverDeleted
    {
      this.sender := sender;
      this.receiver := receiver;
      this.sent := sent;
      senderDeleted := false;
      receiverDeleted := false;
    }

    /** The deletion rule: the sender has deleted it, and it is a draft or the
        receiver has deleted it too. */
    predicate Doomed()
      reads this
    {
      senderDeleted && (sent.None? || receiverDeleted)
    }

    /** Whether `user` still holds this message in their box: it was sent and
        their own side has not deleted it. */
    predicate HeldBy(user: UserId)
      reads this
    {
      sent.Some? && ((receiver == user && !receiverDeleted) || (sender == user && !senderDeleted))
    }

    /** set_deleted: the sender's flag when the user is the sender, otherwise
        the receiver's flag when the user is the receiver; nothing for anyone
        else. */
    method SetDeleted(user: UserId)
      modifies this
      ensures user == sender ==> senderDeleted && receiverDeleted == old(receiverDeleted)
      ensures user != sender && user == receiver ==> receiverDeleted && senderDeleted == old(senderDeleted)
      ensures user != sender && user != receiver ==>
        senderDeleted == old(senderDeleted) && receiverDeleted == old(receiverDeleted)
    {
      if user == sender {
        senderDeleted := true;
      } else if user == receiver {
        receiverDeleted := true;
      }
    }
  }

  /** A conversation between `me` and `others`, as the delete view selects
      it: messages from me to one of them or from one of them to me, leaving
      out drafts addressed to me. */
  predicate InConversation(m: Message, me: UserId, others: set<UserId>) {
    ((m.sender == me && m.receiver in others) || (m.sender in others && m.receiver == me))
    && !(m.receiver == me && m.sent.None?)
  }

  class Mailbox {
    /** The stored messages. */
    var messages: set<Message>

    constructor ()
      ensures messages == {}
    {
      messages := {};
    }

    /** No stored message already satisfies the deletion rule. */
    ghost predicate Valid()
      reads this, messages
    {
      forall m :: m in messages ==> !m.Doomed()
    }

    function Conversation(me: UserId, others: set<UserId>): (r: set<Message>)
      reads this
      ensures r <= messages && forall m :: m in messages ==> (m in r <==> InConversation(m, me, others))
    {
      set m | m in messages && InConversation(m, me, others)
    }

    /** The sent messages `user` still holds. */
    function BoxOf(user: UserId): (r: set<Message>)
      reads this, messages
      ensures r <= messages && forall m :: m in messages ==> (m in r <==> m.HeldBy(user))
    {
      set m | m in messages && m.HeldBy(user)
    }

    /** MessageSerializer.validate: a message to `receiver` is refused once
        the receiver's box holds the configured maximum. */
    function ValidateMessage(receiver: UserId, cfg: Config): (v: Validation.Verdict)
      reads this, messages
      ensures v.Pass? <==> |BoxOf(receiver)| < cfg.maxMessages
      ensures v.Fail? ==> v.message == "Message box full"
    {
      if |BoxOf(receiver)| >= cfg.maxMessages then Validation.Fail("Message box full")
      else Validation.Pass
    }

    /** ConversationDeleteView.put: marks every message of the conversation
        deleted on `me`'s side, removes those that then satisfy the deletion
        rule, and answers how many messages were selected. */
    method DeleteConversation(me: UserId, others: set<UserId>) returns (count: nat)
      requires Valid()
      modifies this, Conversation(me, others)
      ensures Valid()
      ensures count == |old(Conversation(me, others))|
      ensures forall m :: m in old(Conversation(me, others)) ==>
        && m.senderDeleted == (old(m.senderDeleted) || me == m.sender)
        && m.receiverDeleted == (old(m.receiverDeleted) || (me != m.sender && me == m.receiver))
      ensures forall m :: m in messages <==> m in old(messages) && !m.Doomed()
      ensures forall u :: BoxOf(u) <= old(BoxOf(u))
      ensures forall u :: old(ValidateMessage(u, Settings)).Pass? ==> ValidateMessage(u, Settings).Pass?
    {
      var remaining := Conversation(me, others);
      var conv := remaining;
      count := |conv|;
      while remaining != {}
        invariant remaining <= conv
        invariant forall m :: m in conv - remaining ==>
          && m.senderDeleted == (old(m.senderDeleted) || me == m.sender)
          && m.receiverDeleted == (old(m.receiverDeleted) || (me != m.sender && me == m.receiver))
        invariant forall m :: m in remaining ==>
          m.senderDeleted == old(m.senderDeleted) && m.receiverDeleted == old(m.receiverDeleted)
        invariant forall m :: m in messages <==> m in old(messages) && !(m in conv - remaining && m.Doomed())
        decreases remaining
      {
        var m :| m in remaining;
        m.SetDeleted(me);
        if m.Doomed() {
          messages := messages - {m};
        }
        remaining := remaining - {m};
      }
      forall u ensures BoxOf(u) <= old(BoxOf(u)) {
        forall m | m in BoxOf(u) ensures m in old(BoxOf(u)) {
          assert m in old(messages);
        }
      }
      forall u ensures |BoxOf(u)| <= old(|BoxOf(u)|) {
        Validation.SubsetCard(BoxOf(u), old(BoxOf(u)));
      }
    }
  }
}
