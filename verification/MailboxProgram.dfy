/** The `dispatch` and `process` blocks of `mailbox.aleo` on their mappings. */
module MailboxProgram {
  import opened Prelude
  import opened Messages
  import opened Mailbox

  class Program {
    const env: Env
    var mailbox: Option<Config>
    var deliveries: map<Digest, Delivery>
    var dispatchEvents: map<nat, Message>
    var dispatchIds: map<nat, Digest>
    var processEvents: map<nat, Digest>
    var dispatchIndex: map<nat, nat>
    var processIndex: map<nat, nat>
    const applications: map<Address, seq<nat>>

    function Value(): State
      reads this
    {
      State(mailbox, deliveries, dispatchEvents, dispatchIds, processEvents, dispatchIndex, processIndex, applications)
    }

    constructor (env: Env, s: State)
      ensures this.env == env && Value() == s
    {
      this.env := env;
      mailbox, deliveries, dispatchEvents, dispatchIds := s.mailbox, s.deliveries, s.dispatchEvents, s.dispatchIds;
      processEvents, dispatchIndex, processIndex := s.processEvents, s.dispatchIndex, s.processIndex;
      applications := s.applications;
    }

    method Dispatch(height: nat, caller: Address, sender: Address, destination: nat, recipient: seq<nat>,
                    body: seq<nat>)
      returns (ok: bool)
      modifies this
      ensures ok == CanDispatch(old(Value()), caller)
      ensures !ok ==> Value() == old(Value())
      ensures ok ==> Value() == Dispatched(env, old(Value()), height,
                                           NextMessage(env, old(mailbox).value, sender, destination, recipient, body))
    {
      ok := false;
      if mailbox.None? { return; }
      var c := mailbox.value;
      if caller != c.dispatchProxy || c.nonce + 1 >= U32 { return; }
      var m := Message(3, c.nonce, c.localDomain, env.bytesOf(sender), destination, recipient, body);
      var id := env.keccak(Encode(m));
      dispatchEvents := dispatchEvents[c.nonce := m];
      dispatchIds := dispatchIds[c.nonce := id];
      dispatchIndex := dispatchIndex[height := c.nonce];
      mailbox := Some(c.(nonce := c.nonce + 1));
      ok := true;
    }

    method Process(height: nat, caller: Address, m: Message, length: nat, id: Digest, verified: bool) returns (ok: bool)
      requires WellTyped(m)
      modifies this
      ensures ok == CanProcess(env, old(Value()), caller, m, length, id, verified)
      ensures Value() == if ok then Processed(old(Value()), height, caller, id) else old(Value())
    {
      ok := false;
      if mailbox.None? { return; }
      if length < 77 || length > 333 { return; }
      if (length - 77) % 16 != 0 && length != 206 && length != 149 && length != 167 { return; }
      EncodeLength(m);
      var selected := SelectId(env.keccak, Encode(m), length);
      if selected != id { return; }
      var c := mailbox.value;
      if !verified { return; }
      if m.recipient != env.bytesOf(caller) || m.version != 3 || m.destination != c.localDomain { return; }
      if id in deliveries || c.processCount + 1 >= U32 { return; }
      deliveries := deliveries[id := Delivery(caller, height)];
      processEvents := processEvents[c.processCount := id];
      processIndex := processIndex[height := c.processCount];
      mailbox := Some(c.(processCount := c.processCount + 1));
      ok := true;
    }
  }
}
