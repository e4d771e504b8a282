/**
 * Construction of the system prompt: the assistant's fixed instructions,
 * followed by a line with the user's name when the fact store holds one.
 * The fact store (a SQLite table read by `load_facts`) is a map parameter.
 */
module SystemPrompt {
  import opened Options

  /** The base prompt of the modular assistant (prompts/system_prompt.py). */
  const DarianBase: string :=
    "És o Darian, um assistente direto, objetivo e eficiente.\n"
    + "Responde sempre em português de Portugal.\n\n"
    + "Regras obrigatórias:\n"
    + "- Responde de forma curta e direta.\n"
    + "- Não expliques raciocínio.\n"
    + "- Não acrescentes contexto desnecessário.\n"
    + "- Não faças conversa.\n"

  /** The two extra rules of the single-file assistants. */
  const ExtraRules: string :=
    "- Se a pergunta for factual (ex: tempo, horas, datas), responde apenas com o facto.\n"
    + "- Usa frases simples e claras.\n"

  /** The base prompt of darian.py. */
  const DarianFullBase: string := DarianBase + ExtraRules

  /** The base prompt of aura.py. */
  const AuraBase: string :=
    "És a AURA, um assistente direto, objetivo e eficiente.\n"
    + "Responde sempre em português de Portugal.\n\n"
    + "Regras obrigatórias:\n"
    + "- Responde de forma curta e direta.\n"
    + "- Não expliques raciocínio.\n"
    + "- Não acrescentes contexto desnecessário.\n"
    + "- Não faças conversa.\n"
    + ExtraRules

  const FactHeader: string := "\nFACTO CONHECIDO:\nO utilizador chama-se "
  const FactEnd: string := ".\n"

  /** The key under which the user's name is stored. */
  const NameKey: string := "name"

  /** `build_system_prompt()`, with the loaded facts passed in. */
  function BuildSystemPrompt(base: string, facts: map<string, string>): (r: string)
    ensures |r| >= |base| && r[..|base|] == base
  {
    if NameKey in facts then base + FactHeader + facts[NameKey] + FactEnd else base
  }

  /**
   * Reads the user's name back out of a prompt built on `base`: the text between
   * the fact header and the closing ".\n", if the prompt has that shape.
   */
  function KnownName(prompt: string, base: string): Option<string>
  {
    var open := |base| + |FactHeader|;
    if |prompt| >= open + |FactEnd| && prompt[..open] == base + FactHeader
       && prompt[|prompt| - |FactEnd|..] == FactEnd
    then Some(prompt[open..|prompt| - |FactEnd|])
    else None
  }

  /** The name line appears exactly when the facts hold a name, and it carries that name. */
  lemma KnownNameRoundTrip(base: string, facts: map<string, string>)
    ensures KnownName(BuildSystemPrompt(base, facts), base) == Get(facts, NameKey)
  {
    var r := BuildSystemPrompt(base, facts);
    if NameKey in facts {
      var open := |base| + |FactHeader|;
      assert r == (base + FactHeader) + facts[NameKey] + FactEnd;
      assert r[..open] == base + FactHeader;
      assert r[|r| - |FactEnd|..] == FactEnd;
      assert r[open..|r| - |FactEnd|] == facts[NameKey];
    } else {
      assert |r| < |base| + |FactHeader| + |FactEnd|;
    }
  }

  /** Without a name the prompt is the base alone; with one, it is strictly longer. */
  lemma PromptGrowsOnlyWithName(base: string, facts: map<string, string>)
    ensures NameKey in facts <==> |BuildSystemPrompt(base, facts)| > |base|
    ensures NameKey !in facts ==> BuildSystemPrompt(base, facts) == base
  {
  }

  /** Facts other than the name have no effect on the prompt. */
  lemma OnlyTheNameMatters(base: string, f: map<string, string>, g: map<string, string>)
    requires Get(f, NameKey) == Get(g, NameKey)
    ensures BuildSystemPrompt(base, f) == BuildSystemPrompt(base, g)
  {
  }
}
