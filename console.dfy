/** The confirmation and output channel (`IOInterface`): a scripted oracle
    of yes/no answers, and a trace of the prompts asked and the messages
    written. */
module Console {
  import opened Paths

  /** The overwrite question: which source file, which existing target,
      and the answer assumed when nobody answers. */
  datatype Prompt = Prompt(source: Path, target: Path, default: bool)

  /** The messages whose emission the model tracks. */
  datatype Message =
    | Imported(filename: string)   // a file was copied into the target directory
    | Advisory                     // "Some migration files have been imported ..."

  /** A snapshot of the channel. `answers` are the replies still to come;
      once they are used up every prompt gets its default. */
  datatype Channel = Channel(answers: seq<bool>, prompts: seq<Prompt>, output: seq<Message>)

  /** `askConfirmation(question, default)`: the reply and the channel after it. */
  function Ask(c: Channel, p: Prompt): (r: (bool, Channel))
    ensures r.1.prompts == c.prompts + [p] && r.1.output == c.output
    ensures c.answers == [] ==> r.0 == p.default && r.1.answers == []
    ensures c.answers != [] ==> r.0 == c.answers[0] && r.1.answers == c.answers[1..]
  {
    if c.answers == [] then (p.default, c.(prompts := c.prompts + [p]))
    else (c.answers[0], c.(answers := c.answers[1..], prompts := c.prompts + [p]))
  }

  /** The channel after `write(m)`. */
  function Write(c: Channel, m: Message): Channel
  {
    c.(output := c.output + [m])
  }

  /** Every reply still to come is "no". */
  predicate DeclinesAll(c: Channel)
  {
    forall i :: 0 <= i < |c.answers| ==> !c.answers[i]
  }

  class ConsoleIO {
    var answers: seq<bool>
    var prompts: seq<Prompt>
    var output: seq<Message>

    constructor (answers: seq<bool>)
      ensures View() == Channel(answers, [], [])
    {
      this.answers := answers;
      this.prompts := [];
      this.output := [];
    }

    function View(): Channel
      reads this
    {
      Channel(answers, prompts, output)
    }

    method AskConfirmation(p: Prompt) returns (yes: bool)
      modifies this
      ensures (yes, View()) == Ask(old(View()), p)
    {
      prompts := prompts + [p];
      if answers == [] {
        yes := p.default;
      } else {
        yes := answers[0];
        answers := answers[1..];
      }
    }

    method WriteMessage(m: Message)
      modifies this
      ensures View() == Write(old(View()), m)
    {
      output := output + [m];
    }
  }
}
