/** A completion queue as the bag of tags of the operations that have not completed. */
module CompletionQueues {

  class CompletionQueue {
    var tags: multiset<nat>

    constructor ()
      ensures tags == multiset{}
    {
      tags := multiset{};
    }

    method Post(tag: nat)
      modifies this
      ensures tags == old(tags) + multiset{tag}
    {
      tags := tags + multiset{tag};
    }

    method Take(tag: nat)
      requires tag in tags
      modifies this
      ensures tags == old(tags) - multiset{tag}
    {
      tags := tags - multiset{tag};
    }
  }
}
