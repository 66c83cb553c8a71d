/** The project list (`ProjectsPage`): the fetched projects, the admin-only
    controls, the create form with its blank-name guard, and delete. Both
    create and delete refetch the list instead of editing it locally. */
module ProjectsView {
  import opened Common
  import opened Entities
  import opened Api

  /** `user?.role === 'Admin'`. */
  function IsAdmin(user: Option<Identity>): (b: bool)
    ensures b <==> user.Some? && user.value.role == "Admin"
  {
    match user
    case None => false
    case Some(u) => u.role == "Admin"
  }

  /** The controls the page offers. */
  datatype Control = NewProjectButton | OpenProject(id: Id) | DeleteProjectButton(id: Id)

  /** The controls of the project cards, in list order: every card opens its
      project, and an admin also gets its delete button. */
  function CardControls(admin: bool, ps: seq<Project>): (cs: seq<Control>)
    ensures forall id :: OpenProject(id) in cs <==> exists p :: p in ps && p.id == id
    ensures forall id :: DeleteProjectButton(id) in cs <==> admin && exists p :: p in ps && p.id == id
    ensures NewProjectButton !in cs
  {
    if ps == [] then []
    else
      var rest := CardControls(admin, ps[1..]);
      assert forall p :: p in ps <==> p == ps[0] || p in ps[1..];
      [OpenProject(ps[0].id)] + (if admin then [DeleteProjectButton(ps[0].id)] else []) + rest
  }

  /** Everything the page offers: the create button only to an admin, the
      delete buttons only to an admin, and the cards to everyone. */
  function Controls(admin: bool, ps: seq<Project>): (cs: seq<Control>)
    ensures NewProjectButton in cs <==> admin
    ensures forall id :: OpenProject(id) in cs <==> exists p :: p in ps && p.id == id
    ensures forall id :: DeleteProjectButton(id) in cs <==> admin && exists p :: p in ps && p.id == id
  {
    (if admin then [NewProjectButton] else []) + CardControls(admin, ps)
  }

  /** A non-admin sees no control that changes anything. */
  lemma MemberSeesOnlyCards(user: Option<Identity>, ps: seq<Project>, c: Control)
    requires !IsAdmin(user) && c in Controls(IsAdmin(user), ps)
    ensures c.OpenProject?
  {
  }

  datatype ProjectForm = ProjectForm(name: string, description: string)

  const BlankProjectForm := ProjectForm("", "")

  /** The guard of `handleCreate`: a name with something besides white space. */
  function CanCreate(f: ProjectForm): (b: bool)
    ensures b ==> f.name != ""
  {
    !IsBlank(f.name)
  }

  /** The create guard passes exactly when the name has a character besides
      white space. */
  lemma CanCreateIff(f: ProjectForm)
    ensures CanCreate(f) <==> exists i :: 0 <= i < |f.name| && !IsSpace(f.name[i])
  {
  }

  class ProjectsPage {
    const user: Option<Identity>
    var projects: seq<Project>
    var loading: bool
    var showModal: bool
    var form: ProjectForm
    var submitting: bool
    var error: string
    var toast: Option<string>
    ghost var log: seq<Request>
    ghost var navigations: seq<string>

    constructor (u: Option<Identity>)
      ensures user == u && projects == [] && loading && !showModal && !submitting
      ensures form == BlankProjectForm && error == "" && toast == None
      ensures log == [] && navigations == []
    {
      user := u;
      projects, loading, showModal := [], true, false;
      form, submitting, error, toast := BlankProjectForm, false, "", None;
      log, navigations := [], [];
    }

    /** `fetchProjects`: one `GET /projects`; the list is replaced on
        success, the error set on failure, and loading is over either way. */
    method FetchProjects(res: Response<seq<Project>>)
      modifies this`projects, this`error, this`loading, this`log
      ensures log == old(log) + [Get("/projects", map[])]
      ensures projects == if res.Success? then res.data else old(projects)
      ensures error == if res.Success? then old(error) else "Failed to load projects"
      ensures !loading
    {
      log := log + [Get("/projects", map[])];
      if res.Success? {
        projects := res.data;
      } else {
        error := "Failed to load projects";
      }
      loading := false;
    }

    /** The "+ New Project" button, which only an admin is offered. */
    method OpenModal()
      requires IsAdmin(user)
      modifies this`showModal
      ensures showModal
    {
      showModal := true;
    }

    method CloseModal()
      modifies this`showModal
      ensures !showModal
    {
      showModal := false;
    }

    method EditForm(f: ProjectForm)
      modifies this`form
      ensures form == f
    {
      form := f;
    }

    /** A click on a project card. */
    method Open(id: Id)
      modifies this`navigations
      ensures navigations == old(navigations) + [ProjectPath(id)]
    {
      navigations := navigations + [ProjectPath(id)];
    }

    /** `handleCreate`. A name that is blank after trimming sends nothing and
        changes nothing. Otherwise one `POST /projects` with the form as
        typed; on success the form resets, the modal closes and exactly one
        refetch follows (an earlier error stays); on failure the form stays
        and the server's message, or a fallback, becomes the error.
        Submitting is over in both cases. */
    method HandleCreate(post: Response<()>, refetch: Response<seq<Project>>)
      modifies this`form, this`showModal, this`submitting, this`toast
      modifies this`projects, this`error, this`loading, this`log
      ensures !CanCreate(old(form)) ==>
        && log == old(log) && form == old(form) && showModal == old(showModal)
        && submitting == old(submitting) && toast == old(toast)
        && projects == old(projects) && error == old(error) && loading == old(loading)
      ensures CanCreate(old(form)) && post.Success? ==>
        && log == old(log) + [Post("/projects", ProjectFields(old(form).name, old(form).description)), Get("/projects", map[])]
        && form == BlankProjectForm && !showModal && !submitting
        && toast == Some("Project created!")
        && projects == (if refetch.Success? then refetch.data else old(projects))
        && error == (if refetch.Success? then old(error) else "Failed to load projects")
        && !loading
      ensures CanCreate(old(form)) && post.Failure? ==>
        && log == old(log) + [Post("/projects", ProjectFields(old(form).name, old(form).description))]
        && form == old(form) && showModal == old(showModal) && !submitting
        && toast == old(toast) && projects == old(projects) && loading == old(loading)
        && error == MessageOr(post.message, "Failed to create project")
    {
      if !CanCreate(form) {
        return;
      }
      Submit(post, refetch);
    }

    /** The part of `handleCreate` after its guard: the `POST`, then the
        reset and refetch or the error. */
    method Submit(post: Response<()>, refetch: Response<seq<Project>>)
      modifies this`form, this`showModal, this`submitting, this`toast
      modifies this`projects, this`error, this`loading, this`log
      ensures post.Success? ==>
        && log == old(log) + [Post("/projects", ProjectFields(old(form).name, old(form).description)), Get("/projects", map[])]
        && form == BlankProjectForm && !showModal && !submitting
        && toast == Some("Project created!")
        && projects == (if refetch.Success? then refetch.data else old(projects))
        && error == (if refetch.Success? then old(error) else "Failed to load projects")
        && !loading
      ensures post.Failure? ==>
        && log == old(log) + [Post("/projects", ProjectFields(old(form).name, old(form).description))]
        && form == old(form) && showModal == old(showModal) && !submitting
        && toast == old(toast) && projects == old(projects) && loading == old(loading)
        && error == MessageOr(post.message, "Failed to create project")
    {
      submitting := true;
      log := log + [Post("/projects", ProjectFields(form.name, form.description))];
      if post.Success? {
        form := BlankProjectForm;
        showModal := false;
        toast := Some("Project created!");
        FetchProjects(refetch);
      } else {
        error := MessageOr(post.message, "Failed to create project");
      }
      submitting := false;
    }

    /** `handleDelete`: nothing without confirmation; otherwise one `DELETE`,
        and on success a refetch, without removing anything locally: the new
        list is whatever the refetch returns. On failure the error is set. */
    method HandleDelete(id: Id, confirmed: bool, del: Response<()>, refetch: Response<seq<Project>>)
      modifies this`toast, this`projects, this`error, this`loading, this`log
      ensures !confirmed ==>
        log == old(log) && toast == old(toast) && projects == old(projects)
        && error == old(error) && loading == old(loading)
      ensures confirmed && del.Success? ==>
        && log == old(log) + [Delete(ProjectPath(id)), Get("/projects", map[])]
        && toast == Some("Project deleted")
        && projects == (if refetch.Success? then refetch.data else old(projects))
        && error == (if refetch.Success? then old(error) else "Failed to load projects")
        && !loading
      ensures confirmed && del.Failure? ==>
        && log == old(log) + [Delete(ProjectPath(id))]
        && toast == old(toast) && projects == old(projects) && loading == old(loading)
        && error == "Failed to delete project"
    {
      if !confirmed {
        return;
      }
      log := log + [Delete(ProjectPath(id))];
      if del.Success? {
        toast := Some("Project deleted");
        FetchProjects(refetch);
      } else {
        error := "Failed to delete project";
      }
    }

    /** The controls on screen once loading is over. */
    function Offered(): (cs: seq<Control>)
      reads this
      ensures NewProjectButton in cs <==> IsAdmin(user)
      ensures forall id :: DeleteProjectButton(id) in cs <==> IsAdmin(user) && exists p :: p in projects && p.id == id
    {
      Controls(IsAdmin(user), projects)
    }
  }

  /** The error shown after a failed create: the server's message when it
      sent a non-empty one, otherwise the fallback. */
  lemma CreateErrorChoice(message: Option<string>)
    ensures message.Some? && message.value != "" ==> MessageOr(message, "Failed to create project") == message.value
    ensures !(message.Some? && message.value != "") ==> MessageOr(message, "Failed to create project") == "Failed to create project"
  {
  }
}
