/**
 * The `Task` record of the school-assignment page, its nine-task seed list
 * and the pure list transformations its handlers use: the `map` that saves a
 * draft, the `filter` that removes a submitted task and the `filter` that
 * selects the tasks of one subject.
 */
module Tasks {
  import opened Options
  import Seqs

  /** The three subjects, 'português', 'matemática' and 'tecnologia'. */
  datatype Subject = Portugues | Matematica | Tecnologia

  datatype Status = Pending | Draft | Submitted

  datatype Task = Task(
    id: string,
    subject: Subject,
    title: string,
    description: string,
    dueDate: string,
    status: Status,
    content: Option<string>)

  /** No two tasks of the list share an id. */
  predicate UniqueIds(tasks: seq<Task>) {
    forall i, j :: 0 <= i < j < |tasks| ==> tasks[i].id != tasks[j].id
  }

  /** Some task of the list has the id `id`. */
  predicate HasId(tasks: seq<Task>, id: string) {
    exists i :: 0 <= i < |tasks| && tasks[i].id == id
  }

  /** `{ ...task, content: text, status: 'draft' }`. */
  function WithDraft(task: Task, text: string): Task {
    task.(content := Some(text), status := Draft)
  }

  /**
   * `tasks.map(task => task.id === id ? { ...task, content: text, status: 'draft' } : task)`:
   * the same list, position by position, with every task whose id is `id`
   * holding the draft and every other task as it was.
   */
  function MarkDraft(tasks: seq<Task>, id: string, text: string): (r: seq<Task>)
    ensures |r| == |tasks|
    ensures forall i :: 0 <= i < |r| ==>
      r[i] == if tasks[i].id == id then WithDraft(tasks[i], text) else tasks[i]
  {
    if tasks == [] then []
    else
      var head := if tasks[0].id == id then WithDraft(tasks[0], text) else tasks[0];
      [head] + MarkDraft(tasks[1..], id, text)
  }

  /** The test of `tasks.filter(task => task.id !== id)`. */
  function IdIsNot(id: string): Task -> bool {
    (t: Task) => t.id != id
  }

  /** The test of `tasks.filter(task => task.subject === subject)`. */
  function SubjectIs(subject: Subject): Task -> bool {
    (t: Task) => t.subject == subject
  }

  /** `tasks.filter(task => task.id !== id)`: the list without the tasks whose id is `id`. */
  function Without(tasks: seq<Task>, id: string): (r: seq<Task>)
    ensures forall t :: t in r <==> t in tasks && t.id != id
    ensures forall t: Task :: t.id != id ==> multiset(r)[t] == multiset(tasks)[t]
  {
    Seqs.FilterMembers(tasks, IdIsNot(id));
    Seqs.FilterMultiset(tasks, IdIsNot(id));
    Seqs.Filter(tasks, IdIsNot(id))
  }

  /** `tasks.filter(task => task.subject === subject)`: the tasks of one subject. */
  function OfSubject(tasks: seq<Task>, subject: Subject): (r: seq<Task>)
    ensures forall t :: t in r <==> t in tasks && t.subject == subject
    ensures forall t: Task :: t.subject == subject ==> multiset(r)[t] == multiset(tasks)[t]
  {
    Seqs.FilterMembers(tasks, SubjectIs(subject));
    Seqs.FilterMultiset(tasks, SubjectIs(subject));
    Seqs.Filter(tasks, SubjectIs(subject))
  }

  /** Submitting keeps the remaining tasks in their order. */
  lemma WithoutKeepsOrder(tasks: seq<Task>, id: string)
    ensures Seqs.IsSubsequence(Without(tasks, id), tasks)
  {
    Seqs.FilterIsSubsequence(tasks, IdIsNot(id));
  }

  /**
   * A subject tab is the subsequence of the list made of exactly that
   * subject's tasks, each as often as in the list; no other subsequence is.
   */
  lemma OfSubjectExact(tasks: seq<Task>, subject: Subject, r: seq<Task>)
    ensures Seqs.IsSubsequence(OfSubject(tasks, subject), tasks)
    ensures Seqs.IsSubsequence(r, tasks) &&
      (forall t: Task :: multiset(r)[t] == if t.subject == subject then multiset(tasks)[t] else 0)
      ==> r == OfSubject(tasks, subject)
  {
    Seqs.FilterIsSubsequence(tasks, SubjectIs(subject));
    if Seqs.IsSubsequence(r, tasks) &&
      (forall t: Task :: multiset(r)[t] == if t.subject == subject then multiset(tasks)[t] else 0)
    {
      Seqs.FilterUnique(tasks, SubjectIs(subject), r);
    }
  }

  /** Saving a draft under an id no task has leaves the list as it was. */
  lemma MarkDraftAbsent(tasks: seq<Task>, id: string, text: string)
    requires !HasId(tasks, id)
    ensures MarkDraft(tasks, id, text) == tasks
  {
  }

  /** Saving a draft keeps every task's id and subject in place, so it keeps ids unique. */
  lemma MarkDraftKeepsIds(tasks: seq<Task>, id: string, text: string)
    ensures forall i :: 0 <= i < |tasks| ==>
      MarkDraft(tasks, id, text)[i].id == tasks[i].id &&
      MarkDraft(tasks, id, text)[i].subject == tasks[i].subject
    ensures UniqueIds(MarkDraft(tasks, id, text)) <==> UniqueIds(tasks)
  {
  }

  /**
   * When the open task is an entry of the list, the selection rebuilt from it
   * after saving a draft is again an entry of the saved list.
   */
  lemma MarkDraftSelected(tasks: seq<Task>, selected: Task, text: string)
    requires selected in tasks
    ensures WithDraft(selected, text) in MarkDraft(tasks, selected.id, text)
  {
    var i :| 0 <= i < |tasks| && tasks[i] == selected;
    assert MarkDraft(tasks, selected.id, text)[i] == WithDraft(selected, text);
  }

  /** Filtering a list whose ids are unique keeps them unique. */
  lemma {:induction false} FilterKeepsUniqueIds(tasks: seq<Task>, p: Task -> bool)
    requires UniqueIds(tasks)
    ensures UniqueIds(Seqs.Filter(tasks, p))
  {
    if tasks != [] {
      var rest := tasks[1..];
      FilterKeepsUniqueIds(rest, p);
      Seqs.FilterMembers(rest, p);
      if p(tasks[0]) {
        var r := Seqs.Filter(tasks, p);
        assert r == [tasks[0]] + Seqs.Filter(rest, p);
        forall j | 1 <= j < |r| ensures r[0].id != r[j].id {
          assert r[j] in Seqs.Filter(rest, p);
          assert r[j] in rest;
        }
      }
    }
  }

  /** An id occurs in a non-empty list when it is the first task's or occurs in the rest. */
  lemma HasIdCons(tasks: seq<Task>, id: string)
    requires tasks != []
    ensures HasId(tasks, id) <==> tasks[0].id == id || HasId(tasks[1..], id)
  {
    if HasId(tasks, id) && tasks[0].id != id {
      var i :| 0 <= i < |tasks| && tasks[i].id == id;
      assert tasks[1..][i - 1].id == id;
    }
    if HasId(tasks[1..], id) {
      var i :| 0 <= i < |tasks| - 1 && tasks[1..][i].id == id;
      assert tasks[i + 1].id == id;
    }
  }

  /**
   * Submitting removes one task when the ids are unique and the id is
   * present, and none when it is absent.
   */
  lemma {:induction false} WithoutLength(tasks: seq<Task>, id: string)
    requires UniqueIds(tasks)
    ensures UniqueIds(Without(tasks, id))
    ensures |Without(tasks, id)| == if HasId(tasks, id) then |tasks| - 1 else |tasks|
  {
    FilterKeepsUniqueIds(tasks, IdIsNot(id));
    if tasks != [] {
      var rest := tasks[1..];
      assert UniqueIds(rest) by {
        forall i, j | 0 <= i < j < |rest| ensures rest[i].id != rest[j].id {
          assert rest[i] == tasks[i + 1] && rest[j] == tasks[j + 1];
        }
      }
      WithoutLength(rest, id);
      HasIdCons(tasks, id);
      if tasks[0].id == id {
        assert !HasId(rest, id) by {
          forall k | 0 <= k < |rest| ensures rest[k].id != id {
            assert rest[k] == tasks[k + 1];
          }
        }
      }
    }
  }

  /** Submitting a task no other task's id matches leaves the list as it was. */
  lemma WithoutAbsent(tasks: seq<Task>, id: string)
    requires !HasId(tasks, id)
    ensures Without(tasks, id) == tasks
  {
    forall t | t in tasks ensures IdIsNot(id)(t) {
      var i :| 0 <= i < |tasks| && tasks[i] == t;
    }
    Seqs.FilterAll(tasks, IdIsNot(id));
  }

  /** A draft saved and then submitted leaves the list that submitting alone leaves. */
  lemma {:induction false} WithoutAfterMarkDraft(tasks: seq<Task>, id: string, text: string)
    ensures Without(MarkDraft(tasks, id, text), id) == Without(tasks, id)
  {
    if tasks != [] {
      WithoutAfterMarkDraft(tasks[1..], id, text);
      var m := MarkDraft(tasks, id, text);
      assert m[1..] == MarkDraft(tasks[1..], id, text);
    }
  }

  /** The subject tab after saving a draft is that tab with the draft saved in it. */
  lemma {:induction false} OfSubjectAfterMarkDraft(tasks: seq<Task>, subject: Subject, id: string, text: string)
    ensures OfSubject(MarkDraft(tasks, id, text), subject) == MarkDraft(OfSubject(tasks, subject), id, text)
  {
    if tasks != [] {
      OfSubjectAfterMarkDraft(tasks[1..], subject, id, text);
      var m := MarkDraft(tasks, id, text);
      assert m[1..] == MarkDraft(tasks[1..], id, text);
    }
  }

  /** The subject tab after a submission is that tab without the submitted task. */
  lemma OfSubjectAfterWithout(tasks: seq<Task>, subject: Subject, id: string)
    ensures OfSubject(Without(tasks, id), subject) == Without(OfSubject(tasks, subject), id)
  {
    Seqs.FilterCommutes(tasks, IdIsNot(id), SubjectIs(subject));
  }

  /** Every task is shown under exactly one of the three subject tabs. */
  lemma {:induction false} SubjectTabsPartition(tasks: seq<Task>)
    ensures |OfSubject(tasks, Portugues)| + |OfSubject(tasks, Matematica)| + |OfSubject(tasks, Tecnologia)| == |tasks|
  {
    if tasks != [] {
      SubjectTabsPartition(tasks[1..]);
    }
  }

  /**
   * The nine sample tasks `initialTasks`, three per subject. Long texts are
   * written as concatenations of short literals, which keeps the proof
   * obligations that mention the seed small.
   */
  function InitialTasks(): seq<Task> {
    PortuguesSeed() + MatematicaSeed() + TecnologiaSeed()
  }

  /** The 'português' part of the seed. */
  function PortuguesSeed(): seq<Task> {
    [
      Task("1", Portugues, "Análise do Texto " + "\"O Cortiço\"",
        "Leia o primeiro " + "capítulo de \"O " + "Cortiço\" de " + "Aluísio Azevedo e " +
        "faça uma análise " + "dos personagens " + "principais, " + "identificando " +
        "características do " + "Naturalismo.",
        "2024-06-20", Pending, None),
      Task("2", Portugues, "Redação sobre " + "Sustentabilidade",
        "Escreva uma redação " + "dissertativa-argumentativa " + "sobre \"A " +
        "importância da " + "sustentabilidade no " + "século XXI\". " + "Mínimo 25 linhas.",
        "2024-06-18", Pending, None),
      Task("3", Portugues, "Exercícios de " + "Sintaxe",
        "Complete os " + "exercícios sobre " + "predicado verbal, " + "nominal e " +
        "verbo-nominal. " + "Páginas 45-47 do " + "livro didático.",
        "2024-06-22", Pending, None)
    ]
  }

  /** The 'matemática' part of the seed. */
  function MatematicaSeed(): seq<Task> {
    [
      Task("4", Matematica, "Sistemas de Equações",
        "Resolva os 15 " + "sistemas de " + "equações lineares " + "usando o método da " +
        "substituição e da " + "adição. Mostre " + "todos os cálculos.",
        "2024-06-19", Pending, None),
      Task("5", Matematica, "Problemas de " + "Geometria",
        "Calcule a área e o " + "perímetro de " + "figuras geométricas " + "compostas. " +
        "Exercícios 1-10 da " + "página 89.",
        "2024-06-21", Pending, None),
      Task("6", Matematica, "Função Afim - " + "Gráficos",
        "Construa os " + "gráficos das " + "funções afins e " + "identifique " +
        "coeficiente angular " + "e linear. Lista de " + "exercícios anexa.",
        "2024-06-23", Pending, None)
    ]
  }

  /** The 'tecnologia' part of the seed. */
  function TecnologiaSeed(): seq<Task> {
    [
      Task("7", Tecnologia, "Projeto: Site " + "Pessoal",
        "Crie um site " + "pessoal usando " + "HTML, CSS e " + "JavaScript. Deve " +
        "conter: sobre mim, " + "hobbies, projetos e " + "contato.",
        "2024-06-25", Pending, None),
      Task("8", Tecnologia, "Algoritmos em " + "Scratch",
        "Desenvolva um jogo " + "simples no Scratch " + "com pelo menos 3 " +
        "sprites, movimento, " + "pontuação e som.",
        "2024-06-24", Pending, None),
      Task("9", Tecnologia, "Pesquisa sobre IA",
        "Faça uma pesquisa " + "sobre Inteligência " + "Artificial na " +
        "educação. Apresente " + "em slides (mínimo " + "10 slides).",
        "2024-06-26", Pending, None)
    ]
  }

  /** The seed holds nine tasks with the ids "1" to "9", in that order. */
  lemma InitialTasksIds()
    ensures |InitialTasks()| == 9
    ensures forall i :: 0 <= i < 9 ==> InitialTasks()[i].id == ["123456789"[i]]
  {
  }

  /** The seed's ids are unique. */
  lemma InitialTasksUniqueIds()
    ensures UniqueIds(InitialTasks())
  {
    InitialTasksIds();
    var s := InitialTasks();
    forall i, j | 0 <= i < j < |s| ensures s[i].id != s[j].id {
      assert s[i].id[0] == "123456789"[i] && s[j].id[0] == "123456789"[j];
    }
  }

  /** Every seeded task is pending and has no content yet. */
  lemma InitialTasksPending()
    ensures forall t :: t in InitialTasks() ==> t.status == Pending && t.content == None
  {
  }

  /**
   * The seed shows three tasks under each subject tab: under 'português'
   * the first three, under 'matemática' the next three, under 'tecnologia'
   * the last three.
   */
  lemma InitialTasksTabs()
    ensures |PortuguesSeed()| == |MatematicaSeed()| == |TecnologiaSeed()| == 3
    ensures OfSubject(InitialTasks(), Portugues) == PortuguesSeed()
    ensures OfSubject(InitialTasks(), Matematica) == MatematicaSeed()
    ensures OfSubject(InitialTasks(), Tecnologia) == TecnologiaSeed()
  {
    OfSubjectOfBlocks(PortuguesSeed(), MatematicaSeed(), TecnologiaSeed());
  }

  /**
   * A list made of a 'português' block, a 'matemática' block and a
   * 'tecnologia' block shows each block under its own tab.
   */
  lemma OfSubjectOfBlocks(a: seq<Task>, b: seq<Task>, c: seq<Task>)
    requires forall t :: t in a ==> t.subject == Portugues
    requires forall t :: t in b ==> t.subject == Matematica
    requires forall t :: t in c ==> t.subject == Tecnologia
    ensures OfSubject(a + b + c, Portugues) == a
    ensures OfSubject(a + b + c, Matematica) == b
    ensures OfSubject(a + b + c, Tecnologia) == c
  {
    Seqs.FilterAppend(a + b, c, SubjectIs(Portugues));
    Seqs.FilterAppend(a, b, SubjectIs(Portugues));
    Seqs.FilterAppend(a + b, c, SubjectIs(Matematica));
    Seqs.FilterAppend(a, b, SubjectIs(Matematica));
    Seqs.FilterAppend(a + b, c, SubjectIs(Tecnologia));
    Seqs.FilterAppend(a, b, SubjectIs(Tecnologia));
    Seqs.FilterAll(a, SubjectIs(Portugues));
    Seqs.FilterNone(b, SubjectIs(Portugues));
    Seqs.FilterNone(c, SubjectIs(Portugues));
    Seqs.FilterNone(a, SubjectIs(Matematica));
    Seqs.FilterAll(b, SubjectIs(Matematica));
    Seqs.FilterNone(c, SubjectIs(Matematica));
    Seqs.FilterNone(a, SubjectIs(Tecnologia));
    Seqs.FilterNone(b, SubjectIs(Tecnologia));
    Seqs.FilterAll(c, SubjectIs(Tecnologia));
  }

  /** With unique ids, saving a draft on the task at position `i` changes that position alone. */
  lemma MarkDraftAt(tasks: seq<Task>, i: nat, text: string)
    requires UniqueIds(tasks) && i < |tasks|
    ensures MarkDraft(tasks, tasks[i].id, text) == tasks[i := WithDraft(tasks[i], text)]
  {
    var r := MarkDraft(tasks, tasks[i].id, text);
    forall j | 0 <= j < |tasks| && j != i ensures r[j] == tasks[j] {
      assert tasks[j].id != tasks[i].id;
    }
  }

  /** With unique ids, submitting the task at position `i` removes that position alone. */
  lemma WithoutAt(tasks: seq<Task>, i: nat)
    requires UniqueIds(tasks) && i < |tasks|
    ensures Without(tasks, tasks[i].id) == tasks[..i] + tasks[i + 1..]
  {
    var id := tasks[i].id;
    forall j | 0 <= j < |tasks| && j != i ensures IdIsNot(id)(tasks[j]) {
      assert tasks[j].id != id;
    }
    Seqs.FilterDropsOne(tasks, IdIsNot(id), i);
  }

  /**
   * Saving the draft "x=2" on task "4" of the seed changes that task alone:
   * it becomes a draft holding "x=2", and the other eight stay as seeded.
   */
  lemma SeedDraftOnFour()
    ensures |InitialTasks()| == 9 && InitialTasks()[3].id == "4"
    ensures MarkDraft(InitialTasks(), "4", "x=2") == InitialTasks()[3 := WithDraft(InitialTasks()[3], "x=2")]
  {
    InitialTasksIds();
    InitialTasksUniqueIds();
    MarkDraftAt(InitialTasks(), 3, "x=2");
  }

  /** Submitting task "7" of the seed leaves the other eight in order. */
  lemma SeedSubmitSeven()
    ensures |InitialTasks()| == 9 && InitialTasks()[6].id == "7"
    ensures Without(InitialTasks(), "7") == InitialTasks()[..6] + InitialTasks()[7..]
  {
    InitialTasksIds();
    InitialTasksUniqueIds();
    WithoutAt(InitialTasks(), 6);
  }
}
